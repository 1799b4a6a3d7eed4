/**
 * The bot's two in-memory tables, as one value:
 * `userEventMap` (user id -> current event code) and
 * `voiceNotesByEvent` (event code -> voice file ids, in arrival order).
 * Both start empty; no operation ever removes an entry.
 */
module SessionStore {
  import opened Wrappers

  /** A Telegram user id (a Java `Long`; only ever compared, so its width does not matter). */
  type UserId = int
  /** Any text; not validated, trimmed or normalised. */
  type EventCode = string
  /** Telegram's opaque reference to an uploaded voice file. */
  type FileId = string

  datatype Store = Store(userEvent: map<UserId, EventCode>, voiceNotes: map<EventCode, seq<FileId>>)

  /** Both tables as the process starts. */
  const Empty: Store := Store(map[], map[])

  /** `userEventMap.get(userId)`, with `null` as `None`. */
  function EventCodeOf(s: Store, user: UserId): (c: Option<EventCode>)
    ensures c.Some? <==> user in s.userEvent
    ensures c.Some? ==> c.value == s.userEvent[user]
  {
    if user in s.userEvent then Some(s.userEvent[user]) else None
  }

  /** The voice notes stored for `code`, empty when none has arrived yet. */
  function Submissions(s: Store, code: EventCode): seq<FileId>
  {
    if code in s.voiceNotes then s.voiceNotes[code] else []
  }

  /** `userEventMap.put(user, code)`: last write wins, nobody else's entry moves. */
  function SetEventCode(s: Store, user: UserId, code: EventCode): (r: Store)
    ensures EventCodeOf(r, user) == Some(code)
    ensures forall other :: other != user ==> EventCodeOf(r, other) == EventCodeOf(s, other)
    ensures r.voiceNotes == s.voiceNotes
  {
    s.(userEvent := s.userEvent[user := code])
  }

  /**
   * `voiceNotesByEvent.computeIfAbsent(code, k -> new ArrayList<>()).add(fileId)`:
   * the list for `code` exists afterwards and has gained `fileId` at its end;
   * every other list and the user table are untouched.
   */
  function AppendVoice(s: Store, code: EventCode, fileId: FileId): (r: Store)
    ensures r.voiceNotes.Keys == s.voiceNotes.Keys + {code}
    ensures Submissions(r, code) == Submissions(s, code) + [fileId]
    ensures forall other :: other != code ==> Submissions(r, other) == Submissions(s, other)
    ensures r.userEvent == s.userEvent
  {
    s.(voiceNotes := s.voiceNotes[code := Submissions(s, code) + [fileId]])
  }

  /**
   * `r` is a possible later state of `s`: no user lost their entry, and every
   * stored list is still there with its old contents as a prefix.
   */
  ghost predicate Extends(s: Store, r: Store)
  {
    && s.userEvent.Keys <= r.userEvent.Keys
    && (forall code :: code in s.voiceNotes ==> code in r.voiceNotes && s.voiceNotes[code] <= r.voiceNotes[code])
  }

  /**
   * A code has a list only once a note has arrived for it: the notes table never
   * holds an empty list (`computeIfAbsent` creates the list and `add` fills it at once).
   */
  ghost predicate NoEmptyList(s: Store)
  {
    forall code :: code in s.voiceNotes ==> |s.voiceNotes[code]| > 0
  }

  lemma ExtendsTransitive(s: Store, t: Store, r: Store)
    requires Extends(s, t) && Extends(t, r)
    ensures Extends(s, r)
  {
  }

  /** Both store writes only ever add: `Extends` holds across each of them. */
  lemma WritesExtend(s: Store, user: UserId, code: EventCode, fileId: FileId)
    ensures Extends(s, SetEventCode(s, user, code))
    ensures Extends(s, AppendVoice(s, code, fileId))
  {
  }

  /** There is no deduplication: the same file id sent twice is stored twice, in order. */
  lemma AppendTwiceKeepsBoth(s: Store, code: EventCode, fileId: FileId)
    ensures Submissions(AppendVoice(AppendVoice(s, code, fileId), code, fileId), code)
         == Submissions(s, code) + [fileId, fileId]
  {
  }
}
