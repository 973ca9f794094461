/**
 * The state of the character-creation form (app/characters/create/page.tsx): its initial value,
 * the helpers that edit greetings and tags, and what `handleSubmit` sends to
 * `createCharacterWithTagValidation`. Rendering and the tag list shown are not modelled; the
 * signed-in user, the new character's id and the clock are inputs of the submit.
 */
module CharacterForm {
  import opened Wrappers
  import opened Relational
  import opened Text
  import opened Records
  import opened Queries
  import opened Tables
  import opened TagLogic

  /** `CharacterFormData`. */
  datatype FormData = FormData(
    name: string,
    description: string,
    personality: string,
    scenario: string,
    firstMessage: string,
    messageExample: string,
    creatorNotes: string,
    systemPrompt: string,
    postHistoryInstructions: string,
    alternateGreetings: seq<string>,
    isNsfw: bool,
    visibility: string,
    tagIds: seq<string>)

  const FailureAlert: string := "Failed to create character. Please try again."

  function Other(tagId: string): string -> bool
  {
    (id: string) => id != tagId
  }

  /** The `handleTagToggle` update: drop the tag when selected, append it otherwise. */
  function Toggle(ids: seq<string>, tagId: string): seq<string>
  {
    if tagId in ids then Filter(ids, Other(tagId)) else ids + [tagId]
  }

  /** Toggling flips whether the tag is selected and leaves every other selection as it was. */
  lemma ToggleMembership(ids: seq<string>, tagId: string)
    ensures tagId in Toggle(ids, tagId) <==> tagId !in ids
    ensures forall x :: x != tagId ==> (x in Toggle(ids, tagId) <==> x in ids)
  {
    if tagId in ids {
      forall x | x != tagId && x in ids ensures x in Toggle(ids, tagId) {
        var i :| 0 <= i < |ids| && ids[i] == x;
      }
    }
  }

  /** Toggling an unselected tag twice gives back the original list. */
  lemma ToggleTwice(ids: seq<string>, tagId: string)
    requires tagId !in ids
    ensures Toggle(Toggle(ids, tagId), tagId) == ids
  {
    var p := Other(tagId);
    FilterConcat(ids, [tagId], p);
    FilterKeepsAll(ids, p);
    assert Filter([tagId], p) == [];
  }

  /** `s.filter((_, i) => i !== index)`. */
  function RemoveAt<T>(s: seq<T>, index: int): (r: seq<T>)
    ensures 0 <= index < |s| ==> r == s[..index] + s[index + 1..]
    ensures !(0 <= index < |s|) ==> r == s
    decreases |s|
  {
    if |s| == 0 then []
    else
      var rest := RemoveAt(s[1..], index - 1);
      if index == 0 then rest
      else
        assert 0 < index < |s| ==> [s[0]] + s[1..][..index - 1] + s[1..][index..] == s[..index] + s[index + 1..];
        [s[0]] + rest
  }

  /** Removing an index in range drops exactly that element and shifts the later ones down. */
  lemma RemoveAtShifts<T>(s: seq<T>, index: int)
    requires 0 <= index < |s|
    ensures |RemoveAt(s, index)| == |s| - 1
    ensures forall j :: 0 <= j < index ==> RemoveAt(s, index)[j] == s[j]
    ensures forall j :: index <= j < |s| - 1 ==> RemoveAt(s, index)[j] == s[j + 1]
  {
  }

  /** `s.trim() || null`. */
  function TrimOrNull(s: string): Option<string>
  {
    var t := Trim(s);
    if t == "" then None else Some(t)
  }

  /** A field becomes null exactly when it is blank, and otherwise holds its trimmed text. */
  lemma TrimOrNullBlank(s: string)
    ensures TrimOrNull(s).None? <==> AllWhitespace(s)
    ensures TrimOrNull(s).Some? ==>
      var t := TrimOrNull(s).value;
      t == Trim(s) && t != "" && !IsWhitespace(t[0]) && !IsWhitespace(t[|t| - 1])
  {
    TrimEmptyIffBlank(s);
    TrimIsMiddle(s);
  }

  function NonBlank(): string -> bool
  {
    (g: string) => Trim(g) != ""
  }

  /** `alternateGreetings.filter(g => g.trim())`. */
  function NonBlankGreetings(greetings: seq<string>): seq<string>
  {
    if greetings == [] then []
    else if Trim(greetings[0]) != "" then [greetings[0]] + NonBlankGreetings(greetings[1..])
    else NonBlankGreetings(greetings[1..])
  }

  /** The greetings filter is the relational filter with the non-blank test. */
  lemma {:induction false} NonBlankGreetingsIsFilter(greetings: seq<string>)
    ensures NonBlankGreetings(greetings) == Filter(greetings, NonBlank())
  {
    if greetings != [] {
      NonBlankGreetingsIsFilter(greetings[1..]);
    }
  }

  /** `filteredGreetings.length > 0 ? filteredGreetings : null`. */
  function GreetingsOrNull(greetings: seq<string>): Option<seq<string>>
  {
    var kept := NonBlankGreetings(greetings);
    if |kept| > 0 then Some(kept) else None
  }

  /**
   * The greetings sent are the non-blank ones, untrimmed; none at all is sent as
   * null exactly when every greeting is blank.
   */
  lemma GreetingsKept(greetings: seq<string>)
    ensures GreetingsOrNull(greetings).None? <==> forall i :: 0 <= i < |greetings| ==> AllWhitespace(greetings[i])
    ensures GreetingsOrNull(greetings).Some? ==>
      var kept := GreetingsOrNull(greetings).value;
      && multiset(kept) <= multiset(greetings)
      && (forall i :: 0 <= i < |kept| ==> !AllWhitespace(kept[i]))
      && (forall i :: 0 <= i < |greetings| && !AllWhitespace(greetings[i]) ==> greetings[i] in kept)
  {
    NonBlankGreetingsIsFilter(greetings);
    var kept := Filter(greetings, NonBlank());
    forall i | 0 <= i < |greetings| ensures NonBlank()(greetings[i]) <==> !AllWhitespace(greetings[i]) {
      TrimEmptyIffBlank(greetings[i]);
    }
    forall i | 0 <= i < |kept| ensures !AllWhitespace(kept[i]) {
      TrimEmptyIffBlank(kept[i]);
    }
    FilterMultiset(greetings, NonBlank());
    if forall i :: 0 <= i < |greetings| ==> AllWhitespace(greetings[i]) {
      forall x | x in greetings ensures !NonBlank()(x) {
        TrimEmptyIffBlank(x);
      }
      FilterKeepsNone(greetings, NonBlank());
    }
  }

  /** The arguments `handleSubmit` passes to `createCharacterWithTagValidation`. */
  function Submission(f: FormData, userId: string): NewCharacter
  {
    NewCharacter(userId, Trim(f.name), TrimOrNull(f.description), TrimOrNull(f.personality),
                 TrimOrNull(f.scenario), TrimOrNull(f.firstMessage), TrimOrNull(f.messageExample),
                 TrimOrNull(f.creatorNotes), Trim(f.systemPrompt), TrimOrNull(f.postHistoryInstructions),
                 GreetingsOrNull(f.alternateGreetings), None, None, Some(f.isNsfw), Some(f.visibility),
                 Some(f.tagIds))
  }

  /**
   * The submission trims the name and system prompt without ever nulling them, nulls any other
   * text field that is blank, and sends the selected tags, NSFW flag and visibility as they are.
   */
  lemma SubmissionNormalises(f: FormData, userId: string)
    ensures var input := Submission(f, userId);
      && input.userId == userId
      && input.name == Trim(f.name) && input.systemPrompt == Trim(f.systemPrompt)
      && (input.description.None? <==> AllWhitespace(f.description))
      && (input.personality.None? <==> AllWhitespace(f.personality))
      && (input.scenario.None? <==> AllWhitespace(f.scenario))
      && (input.firstMessage.None? <==> AllWhitespace(f.firstMessage))
      && (input.messageExample.None? <==> AllWhitespace(f.messageExample))
      && (input.creatorNotes.None? <==> AllWhitespace(f.creatorNotes))
      && (input.postHistoryInstructions.None? <==> AllWhitespace(f.postHistoryInstructions))
      && input.tagIds == Some(f.tagIds) && input.isNsfw == Some(f.isNsfw)
      && input.visibility == Some(f.visibility)
  {
    TrimOrNullBlank(f.description);
    TrimOrNullBlank(f.personality);
    TrimOrNullBlank(f.scenario);
    TrimOrNullBlank(f.firstMessage);
    TrimOrNullBlank(f.messageExample);
    TrimOrNullBlank(f.creatorNotes);
    TrimOrNullBlank(f.postHistoryInstructions);
  }

  /** A submission that ends on the new character's page: a signed-in user and a create that succeeds. */
  predicate SubmitAccepted(f: FormData, user: Option<string>, newId: string, characters: seq<Character>,
                           tags: seq<Tag>, junction: seq<CharacterTag>)
  {
    user.Some? && CreateAccepted(Submission(f, user.value), newId, characters, tags, junction)
  }

  /**
   * What submitting form `f` does, from the tables, alerts and routes before (`…0`) to those after.
   * Without a user it alerts and writes nothing. With one it makes the create call, whose tables are
   * `CharactersAfterCreate` / `JunctionAfterCreate`, and pushes the new character's page exactly when
   * `SubmitAccepted` holds, alerting otherwise.
   */
  predicate SubmitEffect(f: FormData, user: Option<string>, newId: string, now: int, tags: seq<Tag>,
                         characters0: seq<Character>, junction0: seq<CharacterTag>,
                         routes0: seq<string>, alerts0: seq<string>,
                         characters: seq<Character>, junction: seq<CharacterTag>,
                         routes: seq<string>, alerts: seq<string>)
  {
    && (user.None? ==> characters == characters0 && junction == junction0)
    && (user.Some? ==>
          && characters == CharactersAfterCreate(Submission(f, user.value), newId, characters0, tags, now)
          && junction == JunctionAfterCreate(Submission(f, user.value), newId, characters0, tags, junction0, now))
    && if SubmitAccepted(f, user, newId, characters0, tags, junction0)
       then routes == routes0 + ["/characters/" + newId] && alerts == alerts0
       else routes == routes0 && alerts == alerts0 + [FailureAlert]
  }

  /** A submission that ends on the new character's page has stored exactly the normalised character. */
  lemma SubmitPushCreated(f: FormData, user: Option<string>, newId: string, now: int, tags: seq<Tag>,
                          characters0: seq<Character>, junction0: seq<CharacterTag>,
                          routes0: seq<string>, alerts0: seq<string>,
                          characters: seq<Character>, junction: seq<CharacterTag>,
                          routes: seq<string>, alerts: seq<string>)
    requires SubmitEffect(f, user, newId, now, tags, characters0, junction0, routes0, alerts0,
                          characters, junction, routes, alerts)
    requires routes != routes0
    ensures user.Some? && alerts == alerts0
    ensures characters == characters0 + [NewCharacterRow(newId, Submission(f, user.value), now)]
  {
    assert SubmitAccepted(f, user, newId, characters0, tags, junction0);
    var input := Submission(f, user.value);
    assert input.tagIds == Some(f.tagIds);
    assert !HasKey(characters0, CharacterKey, newId);
    if WantsTags(input) {
      assert ValidateTagIds(input.tagIds.value, tags).Pass?;
    }
  }

  /** A submission that ends on the new character's page has attached every tag selected in the form. */
  lemma SubmitPushAttachesTags(f: FormData, user: Option<string>, newId: string, now: int, tags: seq<Tag>,
                          characters0: seq<Character>, junction0: seq<CharacterTag>,
                          routes0: seq<string>, alerts0: seq<string>,
                          characters: seq<Character>, junction: seq<CharacterTag>,
                          routes: seq<string>, alerts: seq<string>)
    requires SubmitEffect(f, user, newId, now, tags, characters0, junction0, routes0, alerts0,
                          characters, junction, routes, alerts)
    requires routes != routes0
    ensures user.Some?
    ensures junction == junction0 + JunctionRows(newId, f.tagIds, now)
  {
    assert SubmitAccepted(f, user, newId, characters0, tags, junction0);
    var input := Submission(f, user.value);
    assert input.tagIds == Some(f.tagIds);
    AcceptedCreateAttachesTags(input, newId, characters0, tags, junction0, now);
  }

  /** A signed-in submission with no tags selected and a free id always ends on the new page. */
  lemma SubmitTaglessPushes(f: FormData, user: Option<string>, newId: string, now: int, tags: seq<Tag>,
                            characters0: seq<Character>, junction0: seq<CharacterTag>,
                            routes0: seq<string>, alerts0: seq<string>,
                            characters: seq<Character>, junction: seq<CharacterTag>,
                            routes: seq<string>, alerts: seq<string>)
    requires SubmitEffect(f, user, newId, now, tags, characters0, junction0, routes0, alerts0,
                          characters, junction, routes, alerts)
    requires user.Some? && f.tagIds == [] && !HasKey(characters0, CharacterKey, newId)
    ensures routes == routes0 + ["/characters/" + newId] && alerts == alerts0
  {
    assert Submission(f, user.value).tagIds == Some(f.tagIds);
  }

  /** A submission that alerts has stored no tag rows, and changed the characters at most by the new row. */
  lemma SubmitAlertStoresNoTags(f: FormData, user: Option<string>, newId: string, now: int, tags: seq<Tag>,
                                characters0: seq<Character>, junction0: seq<CharacterTag>,
                                routes0: seq<string>, alerts0: seq<string>,
                                characters: seq<Character>, junction: seq<CharacterTag>,
                                routes: seq<string>, alerts: seq<string>)
    requires SubmitEffect(f, user, newId, now, tags, characters0, junction0, routes0, alerts0,
                          characters, junction, routes, alerts)
    requires alerts != alerts0
    ensures routes == routes0
    ensures junction == junction0
    ensures user.Some? ==> characters == CharactersAfterCreate(Submission(f, user.value), newId, characters0, tags, now)
    ensures characters == characters0 || characters == characters0 + [NewCharacterRow(newId, Submission(f, user.value), now)]
  {
  }

  /** The page's state: the form, the `loading` flag, the alerts shown and the routes pushed. */
  class CreateCharacterPage {
    var formData: FormData
    var loading: bool
    var alerts: seq<string>
    var routes: seq<string>

    /** The form starts empty with one blank greeting, private, not NSFW, no tags. */
    constructor ()
      ensures formData == FormData("", "", "", "", "", "", "", "", "", [""], false, "private", [])
      ensures !loading && alerts == [] && routes == []
    {
      formData := FormData("", "", "", "", "", "", "", "", "", [""], false, "private", []);
      loading := false;
      alerts := [];
      routes := [];
    }

    /** `handleAlternateGreetingChange`: a copy of the greetings with `index` replaced. */
    method HandleAlternateGreetingChange(index: nat, value: string)
      requires index < |formData.alternateGreetings|
      modifies this`formData
      ensures formData == old(formData).(alternateGreetings := old(formData.alternateGreetings)[index := value])
      ensures |formData.alternateGreetings| == |old(formData.alternateGreetings)|
      ensures forall j :: 0 <= j < |formData.alternateGreetings| && j != index ==>
        formData.alternateGreetings[j] == old(formData.alternateGreetings)[j]
    {
      var greetings := formData.alternateGreetings;
      var newGreetings := new string[|greetings|](i requires 0 <= i < |greetings| => greetings[i]);
      newGreetings[index] := value;
      formData := formData.(alternateGreetings := newGreetings[..]);
    }

    /** `addAlternateGreeting`: appends a blank greeting. */
    method AddAlternateGreeting()
      modifies this`formData
      ensures formData == old(formData).(alternateGreetings := old(formData.alternateGreetings) + [""])
    {
      formData := formData.(alternateGreetings := formData.alternateGreetings + [""]);
    }

    /** `removeAlternateGreeting`: drops the greeting at `index`; an index out of range changes nothing. */
    method RemoveAlternateGreeting(index: int)
      modifies this`formData
      ensures formData == old(formData).(alternateGreetings := RemoveAt(old(formData.alternateGreetings), index))
      ensures 0 <= index < |old(formData.alternateGreetings)| ==>
        |formData.alternateGreetings| == |old(formData.alternateGreetings)| - 1
    {
      formData := formData.(alternateGreetings := RemoveAt(formData.alternateGreetings, index));
    }

    /** `handleTagToggle`. */
    method HandleTagToggle(tagId: string)
      modifies this`formData
      ensures formData == old(formData).(tagIds := Toggle(old(formData.tagIds), tagId))
      ensures tagId in formData.tagIds <==> tagId !in old(formData.tagIds)
    {
      ToggleMembership(formData.tagIds, tagId);
      formData := formData.(tagIds := Toggle(formData.tagIds, tagId));
    }

    /**
     * `handleSubmit`: without a user, alerts before any create call; otherwise creates the
     * character from the normalised form and goes to its page, or alerts when the create fails.
     * `loading` is off again at the end.
     */
    method HandleSubmit(store: Store, user: Option<string>, newId: string, now: int)
      requires store.Valid()
      modifies this`loading, this`alerts, this`routes, store`characters, store`characterTags
      ensures store.Valid()
      ensures !loading
      ensures SubmitEffect(old(formData), user, newId, now, store.tags,
                           old(store.characters), old(store.characterTags), old(routes), old(alerts),
                           store.characters, store.characterTags, routes, alerts)
    {
      var f := formData;
      loading := true;
      TrySubmit(store, f, user, newId, now);
      loading := false;
    }

    /**
     * The `try` block of `handleSubmit`: a missing user is thrown and caught as the alert;
     * otherwise the character is created and its page pushed, or the create's error is caught as
     * the alert.
     */
    method TrySubmit(store: Store, f: FormData, user: Option<string>, newId: string, now: int)
      requires store.Valid()
      modifies this`alerts, this`routes, store`characters, store`characterTags
      ensures store.Valid()
      ensures SubmitEffect(f, user, newId, now, store.tags,
                           old(store.characters), old(store.characterTags), old(routes), old(alerts),
                           store.characters, store.characterTags, routes, alerts)
    {
      if user.None? {
        alerts := alerts + [FailureAlert];
      } else {
        var input := Submission(f, user.value);
        assert input.tagIds == Some(f.tagIds);
        CreateFromInput(store, input, newId, now);
      }
    }

    /** The create call and what follows it, for the arguments already built. */
    method CreateFromInput(store: Store, input: NewCharacter, newId: string, now: int)
      requires store.Valid()
      modifies this`alerts, this`routes, store`characters, store`characterTags
      ensures store.Valid()
      ensures CreateAccepted(input, newId, old(store.characters), store.tags, old(store.characterTags)) ==>
        routes == old(routes) + ["/characters/" + newId] && alerts == old(alerts)
      ensures !CreateAccepted(input, newId, old(store.characters), store.tags, old(store.characterTags)) ==>
        routes == old(routes) && alerts == old(alerts) + [FailureAlert]
      ensures routes != old(routes) ==> store.characters == old(store.characters) + [NewCharacterRow(newId, input, now)]
      ensures !WantsTags(input) && !HasKey(old(store.characters), CharacterKey, newId) ==>
        routes == old(routes) + ["/characters/" + newId]
      ensures store.characters == CharactersAfterCreate(input, newId, old(store.characters), store.tags, now)
      ensures store.characterTags ==
        JunctionAfterCreate(input, newId, old(store.characters), store.tags, old(store.characterTags), now)
    {
      var created := store.CreateCharacterWithTagValidation(input, newId, now);
      if created.Success? {
        routes := routes + ["/characters/" + created.value.id];
      } else {
        alerts := alerts + [FailureAlert];
      }
    }
  }
}
