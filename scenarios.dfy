/** Concrete conversations: the edge cases of the `/start` split and typical conversations. */
module Scenarios {
  import opened Wrappers
  import opened JavaSplit
  import opened SessionStore
  import opened Router
  import opened RouterProperties

  function TextFrom(user: UserId, text: string): Update
  {
    WithMessage(Message(user, user, Some(text), NoVoice))
  }

  function VoiceFrom(user: UserId, fileId: FileId): Update
  {
    WithMessage(Message(user, user, None, Voice(fileId)))
  }

  /** `"/start"` alone and `"/startfoo"` (the prefix test is not a word test) both get the welcome prompt. */
  lemma StartAloneWelcomes(s: Store, user: UserId)
    ensures Step(s, TextFrom(user, "/start")) == Handled(s, Some(Outgoing(user, Welcome)))
    ensures Step(s, TextFrom(user, "/startfoo")) == Handled(s, Some(Outgoing(user, Welcome)))
  {
    assert "/start" == StartToken + "";
    StartWithoutArgument(s, TextFrom(user, "/start").message, "");
    assert "/startfoo" == StartToken + "foo";
    StartWithoutArgument(s, TextFrom(user, "/startfoo").message, "foo");
  }

  /** `"/start Birthday_2025"` joins `"Birthday_2025"`. */
  lemma StartJoinsCode(s: Store, user: UserId)
    ensures Step(s, TextFrom(user, "/start Birthday_2025"))
         == Handled(SetEventCode(s, user, "Birthday_2025"), Some(Outgoing(user, Joined("Birthday_2025"))))
  {
    assert "/start Birthday_2025" == StartToken + " " + "Birthday_2025";
    StartJoinsRemainder(s, TextFrom(user, "/start Birthday_2025").message, " ", "Birthday_2025");
  }

  /** `"/start "` joins the empty code: the trailing empty piece of the split is kept. */
  lemma StartJoinsEmptyCode(s: Store, user: UserId)
    ensures Step(s, TextFrom(user, "/start ")) == Handled(SetEventCode(s, user, ""), Some(Outgoing(user, Joined(""))))
  {
  }

  /** `"/start \t My Party "` joins `"My Party "`: inner and trailing blanks are kept. */
  lemma StartKeepsInnerWhitespace(s: Store, user: UserId)
    ensures Step(s, TextFrom(user, "/start \t My Party "))
         == Handled(SetEventCode(s, user, "My Party "), Some(Outgoing(user, Joined("My Party "))))
  {
    var sep := " \t ";
    assert AllWhitespace(sep) by { assert sep[0] == ' ' && sep[1] == '\t' && sep[2] == ' '; }
    assert "/start \t My Party " == StartToken + sep + "My Party ";
    StartJoinsRemainder(s, TextFrom(user, "/start \t My Party ").message, sep, "My Party ");
  }

  /** `"/startfoo bar"` is routed to the start handler and joins `"bar"`. */
  lemma StartWithGluedToken(s: Store, user: UserId)
    ensures Step(s, TextFrom(user, "/startfoo bar")) == Handled(SetEventCode(s, user, "bar"), Some(Outgoing(user, Joined("bar"))))
  {
    var text := "/startfoo bar";
    assert text[..9] == "/startfoo" && text[13 - 3..] == "bar" && text[9..10] == " ";
    assert SplitsAs(text, "/startfoo", "bar");
    StartWithArgument(s, TextFrom(user, text).message, "/startfoo", "bar");
  }

  /**
   * From empty tables: a user types `"MyWeddingXYZ"` (it becomes the code), then
   * `"hello"` (refused, the code stays), then sends voice note `"AAEE123"`, which
   * is stored as the only note of `"MyWeddingXYZ"`.
   */
  lemma FreeTextThenVoice(user: UserId)
    ensures var r := Run(Empty, [TextFrom(user, "MyWeddingXYZ"), TextFrom(user, "hello"), VoiceFrom(user, "AAEE123")]);
      && r.0.userEvent == map[user := "MyWeddingXYZ"]
      && r.0.voiceNotes == map["MyWeddingXYZ" := ["AAEE123"]]
      && r.1 == [Outgoing(user, CodeSet("MyWeddingXYZ")), Outgoing(user, AlreadyAssigned("MyWeddingXYZ")), Outgoing(user, Saved)]
  {
    var updates := [TextFrom(user, "MyWeddingXYZ"), TextFrom(user, "hello"), VoiceFrom(user, "AAEE123")];
    assert !(StartToken <= "MyWeddingXYZ") by { assert "MyWeddingXYZ"[0] != StartToken[0]; }
    assert !(StartToken <= "hello") by { assert "hello"[0] != StartToken[0]; }
    var s1 := SetEventCode(Empty, user, "MyWeddingXYZ");
    assert Step(Empty, updates[0]) == Handled(s1, Some(Outgoing(user, CodeSet("MyWeddingXYZ"))));
    assert Step(s1, updates[1]) == Handled(s1, Some(Outgoing(user, AlreadyAssigned("MyWeddingXYZ"))));
    var s3 := AppendVoice(s1, "MyWeddingXYZ", "AAEE123");
    assert s3.voiceNotes == map["MyWeddingXYZ" := ["AAEE123"]] by {
      assert Submissions(s1, "MyWeddingXYZ") + ["AAEE123"] == ["AAEE123"];
    }
    assert Step(s1, updates[2]) == Handled(s3, Some(Outgoing(user, Saved)));
    var saved, refused := Outgoing(user, Saved), Outgoing(user, AlreadyAssigned("MyWeddingXYZ"));
    assert updates[2..][1..] == [] && updates[1..][1..] == updates[2..];
    assert Run(s1, updates[2..]) == (s3, [saved]) by {
      assert [saved] + [] == [saved];
    }
    assert Run(s1, updates[1..]) == (s3, [refused, saved]) by {
      assert [refused] + [saved] == [refused, saved];
    }
    assert [Outgoing(user, CodeSet("MyWeddingXYZ"))] + [refused, saved] == [Outgoing(user, CodeSet("MyWeddingXYZ")), refused, saved];
  }

  /** A voice note from a user who never gave a code is refused and stored nowhere. */
  lemma VoiceWithoutCode(user: UserId)
    ensures Run(Empty, [VoiceFrom(user, "AAEE123")]) == (Empty, [Outgoing(user, NoEvent)])
  {
    var updates := [VoiceFrom(user, "AAEE123")];
    assert updates[1..] == [];
    assert Step(Empty, updates[0]) == Handled(Empty, Some(Outgoing(user, NoEvent)));
    assert Run(Empty, []) == (Empty, []);
    var first := Step(Empty, updates[0]);
    var rest := Run(first.store, updates[1..]);
    assert rest == (Empty, []);
    assert [first.sent.value] + rest.1 == [Outgoing(user, NoEvent)];
  }
}
