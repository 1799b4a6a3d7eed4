/**
 * What `onUpdateReceived` promises, stated over module Router's `Step`:
 * the dispatch order, each handler's effect on the tables and its reply, and
 * what a whole sequence of updates does.
 */
module RouterProperties {
  import opened Wrappers
  import opened JavaSplit
  import opened SessionStore
  import opened Router

  predicate IsTextReply(r: Reply)
  {
    r.Welcome? || r.Joined? || r.CodeSet? || r.AlreadyAssigned?
  }

  /** An update without a message, or a message with neither text nor voice, is dropped. */
  lemma IgnoredUpdate(s: Store, u: Update)
    requires u.NoMessage? || (u.message.text.None? && u.message.voice == NoVoice)
    ensures Step(s, u) == Handled(s, None)
  {
  }

  /** Text wins: the voice part of a message with text is never looked at, and the reply is a text reply. */
  lemma TextTakesPrecedence(s: Store, m: Message)
    requires m.text.Some?
    ensures Step(s, WithMessage(m)) == Step(s, WithMessage(m.(voice := NoVoice)))
    ensures Step(s, WithMessage(m)).sent.Some?
    ensures IsTextReply(Step(s, WithMessage(m)).sent.value.reply)
  {
  }

  /** Conversely, voice handling (and so every voice reply) happens only for a message without text. */
  lemma VoiceOnlyWithoutText(s: Store, m: Message)
    requires Step(s, WithMessage(m)).sent.Some?
    requires !IsTextReply(Step(s, WithMessage(m)).sent.value.reply)
    ensures m.text.None? && m.voice != NoVoice
  {
  }

  /**
   * `/start` followed by no whitespace at all (`"/start"`, and also `"/startfoo"`,
   * since the test is a plain prefix test) gets the welcome prompt and sets no code.
   */
  lemma StartWithoutArgument(s: Store, m: Message, rest: string)
    requires m.text == Some(StartToken + rest) && NoWhitespace(rest)
    ensures Step(s, WithMessage(m)) == Handled(s, Some(Outgoing(m.chatId, Welcome)))
  {
  }

  /**
   * `/start`-prefixed text that splits into a command token, a whitespace run and
   * `code` stores `code` as the user's event code, replacing any earlier one, and
   * answers `Joined(code)`. Only the sender's entry changes.
   */
  lemma StartWithArgument(s: Store, m: Message, head: string, code: string)
    requires m.text.Some? && StartToken <= m.text.value
    requires SplitsAs(m.text.value, head, code)
    ensures Step(s, WithMessage(m)) == Handled(SetEventCode(s, m.from, code), Some(Outgoing(m.chatId, Joined(code))))
    ensures EventCodeOf(Step(s, WithMessage(m)).store, m.from) == Some(code)
    ensures forall other :: other != m.from ==>
              EventCodeOf(Step(s, WithMessage(m)).store, other) == EventCodeOf(s, other)
    ensures Step(s, WithMessage(m)).store.voiceNotes == s.voiceNotes
  {
    Split2Characterised(m.text.value, head, code);
  }

  /**
   * The common shape `"/start" + whitespace + code`: the code is everything after
   * the whitespace run, internal whitespace included; `"/start "` stores `""`.
   */
  lemma StartJoinsRemainder(s: Store, m: Message, sep: string, code: string)
    requires m.text == Some(StartToken + sep + code)
    requires |sep| > 0 && AllWhitespace(sep) && (code == [] || !IsWhitespace(code[0]))
    ensures Step(s, WithMessage(m)) == Handled(SetEventCode(s, m.from, code), Some(Outgoing(m.chatId, Joined(code))))
  {
    var text := StartToken + sep + code;
    assert text[..|StartToken|] == StartToken;
    assert text[|text| - |code|..] == code;
    assert text[|StartToken|..|text| - |code|] == sep;
    assert SplitsAs(text, StartToken, code);
    StartWithArgument(s, m, StartToken, code);
  }

  /** Other text from a user without a code becomes that code, whole and untrimmed. */
  lemma FreeTextSetsCode(s: Store, m: Message)
    requires m.text.Some? && !(StartToken <= m.text.value)
    requires m.from !in s.userEvent
    ensures Step(s, WithMessage(m)) == Handled(SetEventCode(s, m.from, m.text.value), Some(Outgoing(m.chatId, CodeSet(m.text.value))))
  {
  }

  /** Other text from a user who has a code changes nothing and quotes the code back. */
  lemma FreeTextKeepsCode(s: Store, m: Message)
    requires m.text.Some? && !(StartToken <= m.text.value)
    requires m.from in s.userEvent
    ensures Step(s, WithMessage(m)) == Handled(s, Some(Outgoing(m.chatId, AlreadyAssigned(s.userEvent[m.from]))))
  {
  }

  /**
   * A voice message whose payload is null is refused whether or not the user has
   * a code (the null check comes first); a voice note from a user without a code
   * is refused too. Neither table changes.
   */
  lemma VoiceRefused(s: Store, m: Message)
    requires m.text.None?
    requires m.voice.NullVoice? || (m.voice.Voice? && m.from !in s.userEvent)
    ensures Step(s, WithMessage(m)).store == s
    ensures m.voice.NullVoice? ==> Step(s, WithMessage(m)).sent == Some(Outgoing(m.chatId, NoValidVoice))
    ensures m.voice.Voice? ==> Step(s, WithMessage(m)).sent == Some(Outgoing(m.chatId, NoEvent))
  {
  }

  /**
   * A voice note from a user with code `c` is appended to `c`'s list, after
   * everything already there; no other list and no user's code changes.
   */
  lemma VoiceSaved(s: Store, m: Message)
    requires m.text.None? && m.voice.Voice? && m.from in s.userEvent
    ensures Step(s, WithMessage(m)).sent == Some(Outgoing(m.chatId, Saved))
    ensures Submissions(Step(s, WithMessage(m)).store, s.userEvent[m.from])
         == Submissions(s, s.userEvent[m.from]) + [m.voice.fileId]
    ensures forall code :: code != s.userEvent[m.from] ==>
              Submissions(Step(s, WithMessage(m)).store, code) == Submissions(s, code)
    ensures Step(s, WithMessage(m)).store.userEvent == s.userEvent
  {
  }

  /** `m` is a message from `user` that carries text. */
  predicate SentTextBy(u: Update, user: UserId)
  {
    u.WithMessage? && u.message.from == user && u.message.text.Some?
  }

  /** A user gets a code only by sending text: no other update gives anyone a code. */
  lemma CodeOnlyFromOwnText(s: Store, u: Update, user: UserId)
    requires user !in s.userEvent && user in Step(s, u).store.userEvent
    ensures SentTextBy(u, user)
  {
  }

  /** Updates handled one after another, in arrival order: the final tables and the replies sent. */
  function Run(s: Store, updates: seq<Update>): (r: (Store, seq<Outgoing>))
    decreases |updates|
  {
    if updates == [] then (s, [])
    else
      var first := Step(s, updates[0]);
      var rest := Run(first.store, updates[1..]);
      (rest.0, (if first.sent.Some? then [first.sent.value] else []) + rest.1)
  }

  /** `u` gets a reply: it is a message with text or voice. */
  predicate Answered(u: Update)
  {
    u.WithMessage? && (u.message.text.Some? || u.message.voice != NoVoice)
  }

  function AnsweredCount(updates: seq<Update>): nat
  {
    if updates == [] then 0 else (if Answered(updates[0]) then 1 else 0) + AnsweredCount(updates[1..])
  }

  /** Over any run, both tables only grow and no stored list loses or reorders an element. */
  lemma {:induction false} RunExtends(s: Store, updates: seq<Update>)
    ensures Extends(s, Run(s, updates).0)
    decreases |updates|
  {
    if updates != [] {
      var first := Step(s, updates[0]);
      RunExtends(first.store, updates[1..]);
      ExtendsTransitive(s, first.store, Run(s, updates).0);
    }
  }

  /** Over any run, exactly one reply is sent per message with text or voice. */
  lemma {:induction false} RunReplyCount(s: Store, updates: seq<Update>)
    ensures |Run(s, updates).1| == AnsweredCount(updates)
    decreases |updates|
  {
    if updates != [] {
      RunReplyCount(Step(s, updates[0]).store, updates[1..]);
    }
  }

  /** Starting without a code, a user who sends no text never gets one, whatever else arrives. */
  lemma {:induction false} NoCodeWithoutText(s: Store, updates: seq<Update>, user: UserId)
    requires user !in s.userEvent
    requires forall i :: 0 <= i < |updates| ==> !SentTextBy(updates[i], user)
    ensures user !in Run(s, updates).0.userEvent
    decreases |updates|
  {
    if updates != [] {
      var first := Step(s, updates[0]);
      assert !SentTextBy(updates[0], user);
      assert user !in first.store.userEvent;
      assert forall i :: 0 <= i < |updates[1..]| ==> updates[1..][i] == updates[i + 1];
      NoCodeWithoutText(first.store, updates[1..], user);
    }
  }

  /** No update leaves an empty voice list behind. */
  lemma StepKeepsNoEmptyList(s: Store, u: Update)
    requires NoEmptyList(s)
    ensures NoEmptyList(Step(s, u).store)
  {
  }

  /** Over any run from tables without empty lists, no empty list ever appears. */
  lemma {:induction false} RunKeepsNoEmptyList(s: Store, updates: seq<Update>)
    requires NoEmptyList(s)
    ensures NoEmptyList(Run(s, updates).0)
    decreases |updates|
  {
    if updates != [] {
      StepKeepsNoEmptyList(s, updates[0]);
      RunKeepsNoEmptyList(Step(s, updates[0]).store, updates[1..]);
    }
  }

  /** From the empty start, a code's list is absent until its first note arrives, never empty. */
  lemma RunFromEmptyHasNoEmptyList(updates: seq<Update>)
    ensures NoEmptyList(Run(Empty, updates).0)
  {
    RunKeepsNoEmptyList(Empty, updates);
  }
}
