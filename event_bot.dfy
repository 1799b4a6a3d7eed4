/**
 * The bot object: the two tables as fields that the handlers update in place,
 * and `onUpdateReceived` with its early-return dispatch. Each method is proved
 * to leave the tables, and to send the reply, that module Router prescribes.
 */
module EventBot {
  import opened Wrappers
  import opened JavaSplit
  import opened SessionStore
  import opened Router

  class MemovoxEventBot {
    // userId -> current event code (if any)
    var userEventMap: map<UserId, EventCode>
    // event code -> voice file ids, in arrival order
    var voiceNotesByEvent: map<EventCode, seq<FileId>>

    /** Both tables, as a value. */
    function State(): Store
      reads this
    {
      Store(userEventMap, voiceNotesByEvent)
    }

    constructor ()
      ensures State() == SessionStore.Empty
    {
      userEventMap := map[];
      voiceNotesByEvent := map[];
    }

    method OnUpdateReceived(update: Update) returns (sent: Option<Outgoing>)
      modifies this
      ensures Handled(State(), sent) == Step(old(State()), update)
    {
      if !update.WithMessage? {
        return None;
      }
      var message := update.message;
      if message.text.Some? {
        var text := message.text.value;
        if StartToken <= text {
          var out := HandleStartCommand(message);
          return Some(out);
        }
        var out := HandleTextMessage(message);
        sent := Some(out);
      } else if message.voice != NoVoice {
        var out := HandleVoiceNote(message);
        sent := Some(out);
      } else {
        sent := None;
      }
    }

    method HandleStartCommand(message: Message) returns (out: Outgoing)
      requires message.text.Some?
      modifies this
      ensures out.chatId == message.chatId
      ensures Effect(State(), out.reply) == StartCommand(old(State()), message.from, message.text.value)
    {
      var userId := message.from;
      var parts := Split2(message.text.value);
      if |parts| < 2 {
        // no code provided: the table is left alone
        return Outgoing(message.chatId, Welcome);
      }
      var eventCode := parts[1];
      userEventMap := userEventMap[userId := eventCode];
      out := Outgoing(message.chatId, Joined(eventCode));
    }

    method HandleTextMessage(message: Message) returns (out: Outgoing)
      requires message.text.Some?
      modifies this
      ensures out.chatId == message.chatId
      ensures Effect(State(), out.reply) == TextMessage(old(State()), message.from, message.text.value)
    {
      var userId := message.from;
      var userText := message.text.value;
      if userId !in userEventMap {
        userEventMap := userEventMap[userId := userText];
        out := Outgoing(message.chatId, CodeSet(userText));
      } else {
        var currentCode := userEventMap[userId];
        out := Outgoing(message.chatId, AlreadyAssigned(currentCode));
      }
    }

    method HandleVoiceNote(message: Message) returns (out: Outgoing)
      requires message.voice != NoVoice
      modifies this
      ensures out.chatId == message.chatId
      ensures Effect(State(), out.reply) == VoiceNote(old(State()), message.from, message.voice)
    {
      var userId := message.from;
      if message.voice.NullVoice? {
        return Outgoing(message.chatId, NoValidVoice);
      }
      if userId !in userEventMap {
        return Outgoing(message.chatId, NoEvent);
      }
      var eventCode := userEventMap[userId];
      var fileId := message.voice.fileId;
      var notes := if eventCode in voiceNotesByEvent then voiceNotesByEvent[eventCode] else [];
      voiceNotesByEvent := voiceNotesByEvent[eventCode := notes + [fileId]];
      out := Outgoing(message.chatId, Saved);
    }
  }
}
