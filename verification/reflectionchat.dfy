/**
  The reflection chat screen's conversation log. It opens with two fixed
  messages from Eva. Each send of a non-blank input appends the trimmed
  input as a user message and one of four canned replies, chosen round-robin
  by a counter of successful sends. A blank input changes nothing.
*/
module ReflectionChat {
  import opened JsString
  import EvaPlaceholder

  /** Who wrote a chat message. */
  datatype Role = User | Eva

  /** The screen's own `Message` record, its `id` left out: the ids come
      from the clock and nothing reads them. */
  datatype Message = Message(role: Role, text: Str)

  /** `INITIAL_MESSAGES` (their ids left out). The screen keeps its own
      copy of the two openers; it does not call the dialogue engine. */
  const INITIAL_MESSAGES: seq<Message> :=
    [ Message(Eva, Units("I saw how you checked in. " + "Thank you for being honest.")),
      Message(Eva, Units("What's one thing that's been " + "weighing on you lately?")) ]

  /** `CANNED_EVA_RESPONSES`. */
  const CANNED_EVA_RESPONSES: seq<string> :=
    [ "That sounds heavy. What part of that feels most intense?",
      "I hear you. Sometimes just naming it helps. What else is there?",
      "You're doing well by sharing this. How does it feel to say it out loud?",
      "That makes sense. What would feel like a small step forward?" ]

  /** How many canned replies there are. */
  const REPLY_COUNT: nat := 4

  /** Which canned reply comes after `k` earlier successful sends: the
      replies are used in order and start over after the last. */
  function ReplyIndex(k: nat): (i: nat)
    ensures i < REPLY_COUNT
    decreases k
  {
    if k < REPLY_COUNT then k else ReplyIndex(k - REPLY_COUNT)
  }

  /** The reply given after `k` earlier successful sends: always one of the
      four canned responses. */
  function CannedReply(k: nat): (r: Str)
    ensures exists i :: 0 <= i < REPLY_COUNT && r == EvaPlaceholder.Template(CANNED_EVA_RESPONSES, i)
  {
    EvaPlaceholder.Template(CANNED_EVA_RESPONSES, ReplyIndex(k))
  }

  /** The reply after `k` sends is `CANNED_EVA_RESPONSES[k % 4]`: the
      handler's modular indexing. */
  lemma CannedReplyIsModulo(k: nat)
    ensures CannedReply(k) == EvaPlaceholder.Template(CANNED_EVA_RESPONSES, k % REPLY_COUNT)
  {
    ReplyIndexIsModulo(k);
  }

  lemma {:induction false} ReplyIndexIsModulo(k: nat)
    ensures ReplyIndex(k) == k % REPLY_COUNT
    decreases k
  {
    if k >= REPLY_COUNT {
      ReplyIndexIsModulo(k - REPLY_COUNT);
      ModuloStep(k);
    }
  }

  lemma ModuloStep(k: nat)
    requires k >= REPLY_COUNT
    ensures (k - REPLY_COUNT) % REPLY_COUNT == k % REPLY_COUNT
  {
  }

  /** The screen's state: the log, the text box, and `responseIndexRef`. */
  datatype ChatState = ChatState(messages: seq<Message>, inputText: Str, responseIndex: nat)

  /** The state when the screen mounts. */
  function Initial(): (s: ChatState)
    ensures |s.messages| == 2
    ensures forall k :: 0 <= k < |s.messages| ==> s.messages[k].role == Eva
    ensures s.inputText == [] && s.responseIndex == 0
  {
    ChatState(INITIAL_MESSAGES, [], 0)
  }

  /** `onChangeText={setInputText}`: only the text box changes. */
  function SetInputText(s: ChatState, text: Str): (r: ChatState)
    ensures r.inputText == text
    ensures r.messages == s.messages && r.responseIndex == s.responseIndex
  {
    s.(inputText := text)
  }

  /** `handleSend`. A blank input returns early and leaves everything as it
      was. Otherwise the trimmed input and the next canned reply are appended,
      the counter advances, and the text box is cleared. */
  function HandleSend(s: ChatState): (r: ChatState)
    ensures IsBlank(s.inputText) ==> r == s
    ensures !IsBlank(s.inputText) ==>
              && |r.messages| == |s.messages| + 2
              && r.messages[..|s.messages|] == s.messages
              && r.messages[|s.messages|] == Message(User, Trim(s.inputText))
              && r.messages[|s.messages| + 1]
                   == Message(Eva, EvaPlaceholder.Template(CANNED_EVA_RESPONSES, s.responseIndex % REPLY_COUNT))
              && r.responseIndex == s.responseIndex + 1
              && r.inputText == []
  {
    if IsBlank(s.inputText) then s
    else
      CannedReplyIsModulo(s.responseIndex);
      var userMessage := Message(User, Trim(s.inputText));
      var evaResponse := Message(Eva, CannedReply(s.responseIndex));
      ChatState(s.messages + [userMessage, evaResponse], [], s.responseIndex + 1)
  }

  // ------------------------------------------------------------------
  // The shape of the log
  // ------------------------------------------------------------------

  /** A message the user sent: non-empty and already trimmed. */
  predicate IsUserTurn(m: Message) {
    m.role == User && m.text != [] && IsTrimmed(m.text)
  }

  /** The log is the two opening messages followed by one exchange per
      successful send: the user's trimmed text at an even position, then
      the canned reply numbered by the exchange, cycling through the four. */
  predicate ChatLog(s: ChatState) {
    LogShape(s.messages, s.responseIndex)
  }

  /** `log` holds the opening messages and `n` exchanges. */
  predicate LogShape(log: seq<Message>, n: nat) {
    && |log| == 2 + 2 * n
    && log[..2] == INITIAL_MESSAGES
    && forall j :: 0 <= j < n ==> ExchangeAt(log, j)
  }

  /** Exchange `j` of a log: the user's turn at 2 + 2j, then the reply
      numbered `j` at 3 + 2j. */
  predicate ExchangeAt(log: seq<Message>, j: nat)
    requires 3 + 2 * j < |log|
  {
    IsUserTurn(log[2 + 2 * j]) && log[3 + 2 * j] == Message(Eva, CannedReply(j))
  }

  lemma InitialIsChatLog()
    ensures ChatLog(Initial())
  {
  }

  /** Appending a user turn and the next canned reply keeps the shape. */
  lemma AppendExchange(log: seq<Message>, n: nat, user: Message)
    requires LogShape(log, n)
    requires IsUserTurn(user)
    ensures LogShape(log + [user, Message(Eva, CannedReply(n))], n + 1)
  {
    var r := log + [user, Message(Eva, CannedReply(n))];
    assert r[..2] == log[..2];
    forall j | 0 <= j < n + 1
      ensures ExchangeAt(r, j)
    {
      if j < n {
        assert ExchangeAt(log, j);
        assert r[2 + 2 * j] == log[2 + 2 * j] && r[3 + 2 * j] == log[3 + 2 * j];
      } else {
        assert r[2 + 2 * j] == user;
      }
    }
  }

  /** Sending keeps the log's shape. */
  lemma HandleSendKeepsChatLog(s: ChatState)
    requires ChatLog(s)
    ensures ChatLog(HandleSend(s))
  {
    if !IsBlank(s.inputText) {
      AppendExchange(s.messages, s.responseIndex, Message(User, Trim(s.inputText)));
    }
  }

  /** Typing keeps the log's shape. */
  lemma SetInputTextKeepsChatLog(s: ChatState, text: Str)
    requires ChatLog(s)
    ensures ChatLog(SetInputText(s, text))
  {
  }

  // ------------------------------------------------------------------
  // A whole conversation
  // ------------------------------------------------------------------

  /** The user types `input` and presses send, described directly: a blank
      input is left in the text box and adds nothing; any other adds one
      exchange, moves the counter on by one and clears the box.
      `TypeAndSendIsHandleSend` shows this is `setInputText` followed by
      `handleSend`. */
  function TypeAndSend(s: ChatState, input: Str): (r: ChatState)
    ensures r.messages == s.messages + Exchanges(Sent([input]), s.responseIndex)
    ensures r.responseIndex == s.responseIndex + |Sent([input])|
  {
    assert [input][1..] == [];
    if IsBlank(input) then s.(inputText := input)
    else ChatState(s.messages + Exchanges([Trim(input)], s.responseIndex), [], s.responseIndex + 1)
  }

  /** Typing and sending, step by step through the screen's handlers, is
      the step above. */
  lemma TypeAndSendIsHandleSend(s: ChatState, input: Str)
    ensures TypeAndSend(s, input) == HandleSend(SetInputText(s, input))
  {
    if !IsBlank(input) {
      assert Exchanges([Trim(input)], s.responseIndex)
          == [Message(User, Trim(input)), Message(Eva, CannedReply(s.responseIndex))];
    }
  }

  /** The user types each input in turn and presses send after each. */
  function Converse(s: ChatState, inputs: seq<Str>): ChatState
    decreases |inputs|
  {
    if inputs == [] then s
    else Converse(TypeAndSend(s, inputs[0]), inputs[1..])
  }

  /** The texts that get through: the non-blank inputs, trimmed, in order. */
  function Sent(inputs: seq<Str>): (texts: seq<Str>)
    ensures |texts| <= |inputs|
    decreases |inputs|
  {
    if inputs == [] then []
    else if IsBlank(inputs[0]) then Sent(inputs[1..])
    else [Trim(inputs[0])] + Sent(inputs[1..])
  }

  /** The exchanges for `texts`, numbering the replies from `k`: text `j`
      at position 2j, followed by reply `k + j`. */
  function Exchanges(texts: seq<Str>, k: nat): (log: seq<Message>)
    ensures |log| == 2 * |texts|
  {
    seq(2 * |texts|, i requires 0 <= i < 2 * |texts| =>
      if i % 2 == 0 then Message(User, texts[i / 2]) else Message(Eva, CannedReply(k + i / 2)))
  }

  /** A conversation appends one exchange per non-blank input, with the
      replies taken round-robin from where the counter stood. */
  lemma {:induction false} ConverseAppendsExchanges(s: ChatState, inputs: seq<Str>)
    ensures Converse(s, inputs).messages
            == s.messages + Exchanges(Sent(inputs), s.responseIndex)
    decreases |inputs|
  {
    if inputs != [] {
      var t := TypeAndSend(s, inputs[0]);
      var first, later := Sent([inputs[0]]), Sent(inputs[1..]);
      ConverseAppendsExchanges(t, inputs[1..]);
      SentExchanges(inputs, s.responseIndex);
      AppendChain(s.messages, Exchanges(first, s.responseIndex),
                  Exchanges(later, s.responseIndex + |first|), t.messages,
                  Converse(t, inputs[1..]).messages, Exchanges(Sent(inputs), s.responseIndex));
    }
  }

  /** The exchanges of a conversation split at its first input. */
  lemma SentExchanges(inputs: seq<Str>, k: nat)
    requires inputs != []
    ensures Exchanges(Sent(inputs), k)
            == Exchanges(Sent([inputs[0]]), k) + Exchanges(Sent(inputs[1..]), k + |Sent([inputs[0]])|)
  {
    SentCons(inputs);
    ExchangesAppend(Sent([inputs[0]]), Sent(inputs[1..]), k);
  }

  /** Appending `e1` and then `e2` appends their concatenation. */
  lemma AppendChain<T>(m0: seq<T>, e1: seq<T>, e2: seq<T>, m1: seq<T>, m2: seq<T>, e: seq<T>)
    requires m1 == m0 + e1 && m2 == m1 + e2 && e == e1 + e2
    ensures m2 == m0 + e
  {
  }

  /** The counter advances once per non-blank input. */
  lemma {:induction false} ConverseCountsSends(s: ChatState, inputs: seq<Str>)
    ensures Converse(s, inputs).responseIndex == s.responseIndex + |Sent(inputs)|
    decreases |inputs|
  {
    if inputs != [] {
      ConverseCountsSends(TypeAndSend(s, inputs[0]), inputs[1..]);
      SentCons(inputs);
    }
  }

  lemma SentCons(inputs: seq<Str>)
    requires inputs != []
    ensures Sent(inputs) == Sent([inputs[0]]) + Sent(inputs[1..])
  {
    var first := [inputs[0]];
    assert first[1..] == [];
    if IsBlank(inputs[0]) {
      assert Sent(first) == Sent([]);
    } else {
      assert Sent(first) == [Trim(inputs[0])] + Sent([]);
    }
  }

  lemma ExchangesAppend(a: seq<Str>, b: seq<Str>, k: nat)
    ensures Exchanges(a + b, k) == Exchanges(a, k) + Exchanges(b, k + |a|)
  {
    var l, r := Exchanges(a + b, k), Exchanges(a, k) + Exchanges(b, k + |a|);
    forall i | 0 <= i < |l|
      ensures l[i] == r[i]
    {
      if i >= 2 * |a| {
        HalfShift(i, |a|);
      }
    }
  }

  /** Shifting an index by two per exchange keeps its parity and moves its
      exchange number by one per exchange. */
  lemma HalfShift(i: int, n: int)
    requires i >= 2 * n
    ensures (i - 2 * n) / 2 == i / 2 - n && (i - 2 * n) % 2 == i % 2
  {
  }

  /** From the opening state, after a conversation the log holds
      2 + 2n messages for n non-blank inputs. */
  lemma ConversationLength(inputs: seq<Str>)
    ensures |Converse(Initial(), inputs).messages| == 2 + 2 * |Sent(inputs)|
    ensures Converse(Initial(), inputs).responseIndex == |Sent(inputs)|
  {
    ConverseAppendsExchanges(Initial(), inputs);
    ConverseCountsSends(Initial(), inputs);
  }

  /** The fifth reply is the first one again. */
  lemma RepliesCycle(k: nat)
    ensures CannedReply(k + 4) == CannedReply(k)
  {
  }
}
