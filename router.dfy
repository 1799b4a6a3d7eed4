/**
 * What `onUpdateReceived` does with one update, as a function of the tables
 * before it: which handler runs, how the tables change and which reply goes out.
 * The class in module EventBot implements this step by step on its own fields.
 */
module Router {
  import opened Wrappers
  import opened JavaSplit
  import opened SessionStore

  /** A Telegram chat id (a Java `Long`, only passed through). */
  type ChatId = int

  /**
   * The voice part of a message: `hasVoice()` false; `hasVoice()` true but
   * `getVoice()` null (a transport inconsistency the code still guards); or a voice note.
   */
  datatype VoiceSlot = NoVoice | NullVoice | Voice(fileId: FileId)

  /**
   * The parts of a Telegram message the bot reads: the sender's id, the chat to
   * answer in, the text when `hasText()` holds, and the voice part.
   */
  datatype Message = Message(from: UserId, chatId: ChatId, text: Option<string>, voice: VoiceSlot)

  /** An inbound update: `hasMessage()` false, or the message it carries. */
  datatype Update = NoMessage | WithMessage(message: Message)

  /** The seven answers the bot can give. */
  datatype Reply =
    | Welcome
    | Joined(code: EventCode)
    | CodeSet(code: EventCode)
    | AlreadyAssigned(code: EventCode)
    | NoValidVoice
    | NoEvent
    | Saved

  /** One `sendText(chatId, text)` call. */
  datatype Outgoing = Outgoing(chatId: ChatId, reply: Reply)

  /** What a handler leaves behind: the new tables and the reply it sends. */
  datatype Effect = Effect(store: Store, reply: Reply)

  /** What one update leaves behind: the new tables and the message sent, if any. */
  datatype Handled = Handled(store: Store, sent: Option<Outgoing>)

  const StartToken: string := "/start"

  /**
   * The exact text `sendText` is given for each reply. A reply that names a code
   * quotes it verbatim right after its fixed opening, and every kind of reply
   * ends in its own fixed sentence (told apart by `Marks`).
   */
  function ReplyText(r: Reply): (t: string)
    ensures QuotesCode(r) ==> |CodePrefix(r)| + |r.code| <= |t| && t[|CodePrefix(r)|..|CodePrefix(r)| + |r.code|] == r.code
    ensures |t| > 2 && (t[|t| - 2], t[|t| - 3]) == Marks(r)
  {
    match r
    case Welcome =>
      "Welcome to Memovox Event Bot!\n"
      + "You haven't provided an event code.\n"
      + "Please enter your event code now, or type /start <code> next time."
    case Joined(_) => CodePrefix(r) + r.code + CodeSuffix(r)
    case CodeSet(_) => CodePrefix(r) + r.code + CodeSuffix(r)
    case AlreadyAssigned(_) => CodePrefix(r) + r.code + CodeSuffix(r)
    case NoValidVoice =>
      "No valid voice note detected."
    case NoEvent =>
      "I don't know which event you're participating in.\n"
      + "Type /start <yourEventCode> or just enter the code so I can record your note."
    case Saved =>
      "Thank you for your voice note! It's been saved.\n"
      + "After the deadline, the organizer will receive all voice notes."
  }

  /**
   * The second- and third-last characters of each reply's text: every reply ends
   * in its own fixed sentence, and no two of those sentences end alike.
   */
  function Marks(r: Reply): (char, char)
  {
    match r
    case Welcome => ('e', 'm')
    case Joined(_) => ('n', 'o')
    case CodeSet(_) => ('e', 'g')
    case AlreadyAssigned(_) => ('s', 't')
    case NoValidVoice => ('d', 'e')
    case NoEvent => ('e', 't')
    case Saved => ('s', 'e')
  }

  predicate QuotesCode(r: Reply)
  {
    r.Joined? || r.CodeSet? || r.AlreadyAssigned?
  }

  /** The text before the code, for the replies that quote one. */
  function CodePrefix(r: Reply): string
    requires QuotesCode(r)
  {
    match r
    case Joined(_) => "Hello participant! You've joined event code: "
    case CodeSet(_) => "Thanks! Event code set to: "
    case AlreadyAssigned(_) => "You're already assigned to event code: "
  }

  /** The text after the code, for the replies that quote one. */
  function CodeSuffix(r: Reply): string
    requires QuotesCode(r)
  {
    match r
    case Joined(_) => "\n" + "Please send me a short voice note for this occasion."
    case CodeSet(_) => "\n" + "Please send a voice note to record your message."
    case AlreadyAssigned(_) => "\n" + "Please send a voice note, or type /start <anotherCode> to switch events."
  }

  /** Equal texts around the same frame hold the same middle. */
  lemma FrameCancels(prefix: string, x: string, y: string, suffix: string)
    requires prefix + x + suffix == prefix + y + suffix
    ensures x == y
  {
    assert |x| == |y|;
    assert x == (prefix + x + suffix)[|prefix|..|prefix| + |x|];
    assert y == (prefix + y + suffix)[|prefix|..|prefix| + |y|];
  }

  /** Equal texts end alike; kept apart from the main proof, where the full texts are costly to compare. */
  lemma SameTextSameMarks(a: Reply, b: Reply)
    requires ReplyText(a) == ReplyText(b)
    ensures Marks(a) == Marks(b)
  {
  }

  /** Different replies are different texts: a user can always tell which outcome occurred, and which code. */
  lemma ReplyTextInjective(a: Reply, b: Reply)
    requires ReplyText(a) == ReplyText(b)
    ensures a == b
  {
    SameTextSameMarks(a, b);
    if QuotesCode(a) {
      FrameCancels(CodePrefix(a), a.code, b.code, CodeSuffix(a));
    }
  }

  /**
   * `handleStartCommand`: `text` starts with `/start`. Without whitespace in it the
   * welcome prompt is sent and nothing is stored; otherwise the remainder after the
   * first whitespace run is stored as the user's code and quoted back.
   */
  function StartCommand(s: Store, user: UserId, text: string): (r: Effect)
    ensures r.reply == Welcome <==> NoWhitespace(text)
    ensures r.reply == Welcome ==> r.store == s
    ensures r.reply == Welcome || r.reply.Joined?
    ensures r.reply.Joined? ==> r.store == SetEventCode(s, user, r.reply.code)
    ensures r.reply.Joined? ==> exists head :: SplitsAs(text, head, r.reply.code)
  {
    var parts := Split2(text);
    if |parts| < 2 then Effect(s, Welcome)
    else Effect(SetEventCode(s, user, parts[1]), Joined(parts[1]))
  }

  /**
   * `handleTextMessage`: any other text is taken as the code, unless the user
   * already has one, which is then kept and quoted back.
   */
  function TextMessage(s: Store, user: UserId, text: string): (r: Effect)
    ensures user !in s.userEvent ==> r == Effect(SetEventCode(s, user, text), CodeSet(text))
    ensures user in s.userEvent ==> r == Effect(s, AlreadyAssigned(s.userEvent[user]))
  {
    match EventCodeOf(s, user)
    case None => Effect(SetEventCode(s, user, text), CodeSet(text))
    case Some(current) => Effect(s, AlreadyAssigned(current))
  }

  /**
   * `handleVoiceNote`: the null check comes first, then the user's code is looked
   * up; only a real note from a user with a code is stored, at the end of that
   * code's list. The user table never changes.
   */
  function VoiceNote(s: Store, user: UserId, voice: VoiceSlot): (r: Effect)
    requires voice != NoVoice
    ensures voice.NullVoice? ==> r == Effect(s, NoValidVoice)
    ensures voice.Voice? && user !in s.userEvent ==> r == Effect(s, NoEvent)
    ensures voice.Voice? && user in s.userEvent ==>
              r.reply == Saved && r.store == AppendVoice(s, s.userEvent[user], voice.fileId)
    ensures r.store.userEvent == s.userEvent
  {
    match voice
    case NullVoice => Effect(s, NoValidVoice)
    case Voice(fileId) =>
      match EventCodeOf(s, user)
      case None => Effect(s, NoEvent)
      case Some(code) => Effect(AppendVoice(s, code, fileId), Saved)
  }

  /**
   * `onUpdateReceived`. A message with text or voice gets exactly one reply, in
   * its own chat; anything else is dropped without a trace. No step loses an
   * entry of either table or an element of any list.
   */
  function Step(s: Store, u: Update): (r: Handled)
    ensures r.sent.Some? <==> u.WithMessage? && (u.message.text.Some? || u.message.voice != NoVoice)
    ensures r.sent.Some? ==> r.sent.value.chatId == u.message.chatId
    ensures r.sent.None? ==> r.store == s
    ensures Extends(s, r.store)
  {
    match u
    case NoMessage => Handled(s, None)
    case WithMessage(m) =>
      if m.text.Some? then
        var e :=
          if StartToken <= m.text.value then StartCommand(s, m.from, m.text.value)
          else TextMessage(s, m.from, m.text.value);
        Handled(e.store, Some(Outgoing(m.chatId, e.reply)))
      else if m.voice != NoVoice then
        var e := VoiceNote(s, m.from, m.voice);
        Handled(e.store, Some(Outgoing(m.chatId, e.reply)))
      else
        Handled(s, None)
  }
}
