/**
  How the adapters place the system prompt. Anthropic and Bedrock fold
  system-role messages into one field; OpenAI prepends the field as a message.
  The three translations carry the same conversation.
 */
module Adapters {
  import opened Wrappers
  import opened Provider

  datatype Conversation = Conversation(system: string, messages: seq<Message>)

  function JoinSystem(existing: string, add: string): string {
    if existing == "" then add else existing + "\n\n" + add
  }

  // ------------------------------------------------- what a conversation says

  function SystemTexts(messages: seq<Message>): seq<string> {
    if messages == [] then []
    else
      var m := messages[|messages| - 1];
      SystemTexts(messages[..|messages| - 1]) + (if m.role == ROLE_SYSTEM then [m.content] else [])
  }

  function Turns(messages: seq<Message>): seq<Message> {
    if messages == [] then []
    else
      var m := messages[|messages| - 1];
      Turns(messages[..|messages| - 1]) + (if m.role == ROLE_SYSTEM then [] else [m])
  }

  /** Texts as paragraphs, the empty ones at the front dropped. */
  function Paragraphs(texts: seq<string>): string {
    if texts == [] then ""
    else JoinSystem(Paragraphs(texts[..|texts| - 1]), texts[|texts| - 1])
  }

  /** The conversation of a request: its system texts in order, and its other messages in order. */
  function Meaning(system: string, messages: seq<Message>): Conversation {
    Conversation(Paragraphs([system] + SystemTexts(messages)), Turns(messages))
  }

  lemma ParagraphsSnoc(texts: seq<string>, text: string)
    ensures Paragraphs(texts + [text]) == JoinSystem(Paragraphs(texts), text)
  {
    assert (texts + [text])[..|texts|] == texts;
  }

  lemma ParagraphsOne(text: string)
    ensures Paragraphs([text]) == text
  {
    assert Paragraphs([]) == "";
    assert [text][..0] == [];
  }

  lemma MeaningSnoc(system: string, messages: seq<Message>, m: Message)
    ensures var before := Meaning(system, messages);
      Meaning(system, messages + [m]) ==
        if m.role == ROLE_SYSTEM then Conversation(JoinSystem(before.system, m.content), before.messages)
        else Conversation(before.system, before.messages + [m])
  {
    assert (messages + [m])[..|messages|] == messages;
    if m.role == ROLE_SYSTEM {
      ParagraphsSnoc([system] + SystemTexts(messages), m.content);
      assert [system] + (SystemTexts(messages) + [m.content]) == [system] + SystemTexts(messages) + [m.content];
      assert Turns(messages + [m]) == Turns(messages);
    } else {
      assert SystemTexts(messages + [m]) == SystemTexts(messages);
    }
  }

  // ------------------------------------------------------------ the adapters

  /** The folding loop of the Anthropic adapter. */
  method AnthropicBody(req: ChatRequest) returns (body: Option<Conversation>)
    ensures body == if req.maxTokens <= 0 then None else Some(Meaning(req.system, req.messages))
  {
    if req.maxTokens <= 0 {
      return None;
    }
    var system, messages: seq<Message> := req.system, [];
    ParagraphsOne(req.system);
    for i := 0 to |req.messages|
      invariant Conversation(system, messages) == Meaning(req.system, req.messages[..i])
    {
      var m := req.messages[i];
      MeaningSnoc(req.system, req.messages[..i], m);
      assert req.messages[..i + 1] == req.messages[..i] + [m];
      if m.role == ROLE_SYSTEM {
        system := JoinSystem(system, m.content);
        continue;
      }
      messages := messages + [m];
    }
    assert req.messages[..|req.messages|] == req.messages;
    return Some(Conversation(system, messages));
  }

  /** The same loop in the Bedrock adapter. */
  method BedrockBody(req: ChatRequest) returns (body: Option<Conversation>)
    ensures body == if req.maxTokens <= 0 then None else Some(Meaning(req.system, req.messages))
  {
    if req.maxTokens <= 0 {
      return None;
    }
    var system, messages: seq<Message> := req.system, [];
    ParagraphsOne(req.system);
    for i := 0 to |req.messages|
      invariant Conversation(system, messages) == Meaning(req.system, req.messages[..i])
    {
      var m := req.messages[i];
      MeaningSnoc(req.system, req.messages[..i], m);
      assert req.messages[..i + 1] == req.messages[..i] + [m];
      if m.role == ROLE_SYSTEM {
        system := JoinSystem(system, m.content);
        continue;
      }
      messages := messages + [m];
    }
    assert req.messages[..|req.messages|] == req.messages;
    return Some(Conversation(system, messages));
  }

  /** The list the OpenAI adapter sends. */
  method OpenAIMessages(req: ChatRequest) returns (sent: seq<Message>)
    ensures Meaning("", sent) == Meaning(req.system, req.messages)
    ensures Turns(sent) == Turns(req.messages)
    ensures sent == (if req.system != "" then [Message(ROLE_SYSTEM, req.system)] else []) + req.messages
  {
    sent := [];
    if req.system != "" {
      sent := sent + [Message(ROLE_SYSTEM, req.system)];
    }
    ghost var head := sent;
    for i := 0 to |req.messages|
      invariant sent == head + req.messages[..i]
    {
      sent := sent + [req.messages[i]];
    }
    assert head + req.messages[..|req.messages|] == head + req.messages;
    assert sent == Prepended(req.system, req.messages);
    PrependingKeepsMeaning(req.system, req.messages);
  }

  // ------------------------------------------------------------ the theorems

  function Prepended(system: string, messages: seq<Message>): seq<Message> {
    (if system != "" then [Message(ROLE_SYSTEM, system)] else []) + messages
  }

  /** The contents of the messages with the role "system", from the front. */
  function SystemContents(messages: seq<Message>): seq<string> {
    if messages == [] then []
    else (if messages[0].role == "system" then [messages[0].content] else []) + SystemContents(messages[1..])
  }

  /** The messages with any other role, from the front. */
  function OtherMessages(messages: seq<Message>): seq<Message> {
    if messages == [] then []
    else (if messages[0].role != "system" then [messages[0]] else []) + OtherMessages(messages[1..])
  }

  /** Texts with a blank line between each and the next. */
  function BlankLined(texts: seq<string>): string {
    if texts == [] then ""
    else if |texts| == 1 then texts[0]
    else texts[0] + "\n\n" + BlankLined(texts[1..])
  }

  function FromFirstText(texts: seq<string>): seq<string> {
    if texts == [] || texts[0] != "" then texts else FromFirstText(texts[1..])
  }

  lemma {:induction false} SystemContentsConcat(a: seq<Message>, b: seq<Message>)
    ensures SystemContents(a + b) == SystemContents(a) + SystemContents(b)
  {
    if a == [] {
      assert a + b == b;
    } else {
      assert (a + b)[1..] == a[1..] + b;
      SystemContentsConcat(a[1..], b);
    }
  }

  lemma {:induction false} OtherMessagesConcat(a: seq<Message>, b: seq<Message>)
    ensures OtherMessages(a + b) == OtherMessages(a) + OtherMessages(b)
  {
    if a == [] {
      assert a + b == b;
    } else {
      assert (a + b)[1..] == a[1..] + b;
      OtherMessagesConcat(a[1..], b);
    }
  }

  lemma {:induction false} BlankLinedSnoc(texts: seq<string>, text: string)
    ensures BlankLined(texts + [text]) == if texts == [] then text else BlankLined(texts) + "\n\n" + text
  {
    if texts == [] {
      assert texts + [text] == [text];
    } else {
      assert (texts + [text])[1..] == texts[1..] + [text];
      BlankLinedSnoc(texts[1..], text);
    }
  }

  lemma {:induction false} FromFirstTextSnoc(texts: seq<string>, text: string)
    ensures var kept := FromFirstText(texts);
      && FromFirstText(texts + [text]) == (if kept == [] && text == "" then [] else kept + [text])
      && (kept != [] ==> kept[0] != "")
  {
    if texts == [] {
      assert texts + [text] == [text] && [text][1..] == [];
    } else {
      assert (texts + [text])[1..] == texts[1..] + [text];
      FromFirstTextSnoc(texts[1..], text);
    }
  }

  lemma {:induction false} ParagraphsAreBlankLined(texts: seq<string>)
    ensures Paragraphs(texts) == BlankLined(FromFirstText(texts))
  {
    if texts != [] {
      var init, text := texts[..|texts| - 1], texts[|texts| - 1];
      ParagraphsAreBlankLined(init);
      FromFirstTextSnoc(init, text);
      BlankLinedSnoc(FromFirstText(init), text);
      assert texts == init + [text];
      assert FromFirstText(init) != [] ==> BlankLined(FromFirstText(init)) != "";
    }
  }

  lemma {:induction false} SplitIsInOrder(messages: seq<Message>)
    ensures SystemTexts(messages) == SystemContents(messages) && Turns(messages) == OtherMessages(messages)
  {
    if messages != [] {
      var init, m := messages[..|messages| - 1], messages[|messages| - 1];
      SplitIsInOrder(init);
      SystemContentsConcat(init, [m]);
      OtherMessagesConcat(init, [m]);
      assert messages == init + [m] && [m][1..] == [];
    }
  }

  /**
    What the folding comes to: every system text, the request's own first, in
    order and with blank lines between them, empty ones at the front aside; and
    every other message, unchanged and in order.
   */
  lemma MeaningIsExact(system: string, messages: seq<Message>)
    ensures Meaning(system, messages)
      == Conversation(BlankLined(FromFirstText([system] + SystemContents(messages))), OtherMessages(messages))
  {
    SplitIsInOrder(messages);
    ParagraphsAreBlankLined([system] + SystemTexts(messages));
  }

  /** Folding OpenAI's list from an empty system text gives the other adapters' conversation. */
  lemma {:induction false} PrependingKeepsMeaning(system: string, messages: seq<Message>)
    ensures Meaning("", Prepended(system, messages)) == Meaning(system, messages)
    ensures Turns(Prepended(system, messages)) == Turns(messages)
  {
    if messages == [] {
      ParagraphsOne("");
      ParagraphsOne(system);
      if system != "" {
        var m := Message(ROLE_SYSTEM, system);
        MeaningSnoc("", [], m);
        assert Prepended(system, messages) == [] + [m];
      }
    } else {
      var init, m := messages[..|messages| - 1], messages[|messages| - 1];
      PrependingKeepsMeaning(system, init);
      MeaningSnoc(system, init, m);
      MeaningSnoc("", Prepended(system, init), m);
      assert messages == init + [m];
      assert Prepended(system, messages) == Prepended(system, init) + [m];
    }
  }

  /** A folded conversation has no system message left, so folding it again changes nothing. */
  lemma RefoldingIsIdentity(system: string, messages: seq<Message>)
    ensures var c := Meaning(system, messages); Meaning(c.system, c.messages) == c
  {
    var c := Meaning(system, messages);
    TurnsAreStable(messages);
    ParagraphsOne(c.system);
    assert [c.system] + SystemTexts(c.messages) == [c.system];
  }

  lemma {:induction false} TurnsAreStable(messages: seq<Message>)
    ensures Turns(Turns(messages)) == Turns(messages) && SystemTexts(Turns(messages)) == []
  {
    if messages != [] {
      var init, m := messages[..|messages| - 1], messages[|messages| - 1];
      TurnsAreStable(init);
      if m.role != ROLE_SYSTEM {
        assert (Turns(init) + [m])[..|Turns(init)|] == Turns(init);
      } else {
        assert Turns(messages) == Turns(init);
      }
    }
  }
}
