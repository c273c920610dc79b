/** The page's client for the chat endpoint: the message list a question is sent with (a
    system prompt, the most recent part of the conversation, the question) and the texts
    an answer or a failure turns into. The request itself is network I/O and its outcome
    is a parameter. */
module ApiClient {
  import opened Common
  import opened Text

  datatype ChatMessage = ChatMessage(role: string, content: string)

  const SYSTEM_PROMPT: string :=
    "你是一个优秀的物理实验辅导员，专门帮助学生理解麦克斯韦速率分布。你的回答必须简洁、专业，并能启发学生思考。请使用中文回答。"
  const HISTORY_WINDOW: nat := 10

  function UserMessage(content: string): ChatMessage { ChatMessage("user", content) }

  /** The messages of `getAiResponse(userMessage, chatHistory)`. */
  function RequestMessages(userMessage: string, chatHistory: seq<ChatMessage>): (messages: seq<ChatMessage>)
    ensures |messages| == 2 + Min(HISTORY_WINDOW, |chatHistory|)
    ensures messages[0] == ChatMessage("system", SYSTEM_PROMPT)
    ensures messages[|messages| - 1] == UserMessage(userMessage)
    ensures messages[1..|messages| - 1] == chatHistory[|chatHistory| - Min(HISTORY_WINDOW, |chatHistory|)..]
  {
    var recent := LastN(chatHistory, HISTORY_WINDOW);
    var messages := [ChatMessage("system", SYSTEM_PROMPT)] + recent + [UserMessage(userMessage)];
    assert messages[1..|messages| - 1] == recent;
    messages
  }

  /** The last `k + 1` messages of a conversation that ends with `u` are its last `k`
      messages before `u`, then `u`. */
  lemma LastNAppend<T>(history: seq<T>, u: T, k: nat)
    ensures LastN(history + [u], k + 1) == LastN(history, k) + [u]
  {
    var full := history + [u];
    var a, b := LastN(full, k + 1), LastN(history, k) + [u];
    assert |a| == |b|;
    forall i | 0 <= i < |a| ensures a[i] == b[i] {
      if i < |a| - 1 {
        assert a[i] == full[|full| - |a| + i];
        assert b[i] == history[|history| - (|b| - 1) + i];
      }
    }
  }

  /** The page sends its conversation after adding the question to it, and the question
      is then appended once more: the request ends with the question twice. */
  function SendRequestAsWritten(chatHistory: seq<ChatMessage>, question: string): seq<ChatMessage> {
    RequestMessages(question, chatHistory + [UserMessage(question)])
  }

  lemma QuestionSentTwice(chatHistory: seq<ChatMessage>, question: string)
    ensures var r := SendRequestAsWritten(chatHistory, question);
      |r| >= 3 && r[|r| - 2] == UserMessage(question) && r[|r| - 1] == UserMessage(question)
  {
    var full := chatHistory + [UserMessage(question)];
    var r := SendRequestAsWritten(chatHistory, question);
    assert r[1..|r| - 1] == full[|full| - Min(HISTORY_WINDOW, |full|)..];
    assert r[|r| - 2] == r[1..|r| - 1][|r| - 3];
  }

  /** The request as meant: the conversation as it stood before the question, so that the
      request is the system prompt followed by the last eleven messages of the conversation,
      each once, ending with the question. */
  function SendRequest(chatHistory: seq<ChatMessage>, question: string): seq<ChatMessage> {
    RequestMessages(question, chatHistory)
  }

  lemma SendRequestIsConversationTail(chatHistory: seq<ChatMessage>, question: string)
    ensures SendRequest(chatHistory, question) ==
      [ChatMessage("system", SYSTEM_PROMPT)] + LastN(chatHistory + [UserMessage(question)], HISTORY_WINDOW + 1)
  {
    LastNAppend(chatHistory, UserMessage(question), HISTORY_WINDOW);
  }

  // ---------------------------------------------------------------------------------------
  // Outcomes

  /** How the request ended: the reply's content, a response that is not ok (its status
      and body text), or a thrown error (its name and message, a timeout being an
      `AbortError`). */
  datatype ChatOutcome = Replied(content: string) | NotOk(status: nat, errorText: string) | Thrown(name: string, message: string)

  const TIMEOUT_TEXT: string := "请求超时，请稍后再试。"
  const NETWORK_TEXT: string := "网络连接失败，请检查网络连接后重试。"
  const KEY_TEXT: string := "API密钥无效，请检查配置。"
  const RATE_TEXT: string := "API调用频率过高，请稍后再试。"
  const FAILURE_PREFIX: string := "API调用失败: "
  const STATUS_PREFIX: string := "API request failed with status "

  /** The message of the error a response that is not ok is turned into. */
  function NotOkMessage(status: nat, errorText: string): string {
    STATUS_PREFIX + NatToString(status) + ": " + errorText
  }

  /** The text an error turns into, tested in order: a timeout, a network failure, a
      rejected key, a rate limit, and any other error with its message. */
  function ErrorReply(name: string, message: string): (text: string)
    ensures name == "AbortError" ==> text == TIMEOUT_TEXT
    ensures name != "AbortError" && Contains(message, "Failed to fetch") ==> text == NETWORK_TEXT
    ensures name != "AbortError" && !Contains(message, "Failed to fetch") && Contains(message, "401") ==> text == KEY_TEXT
    ensures (name != "AbortError" && !Contains(message, "Failed to fetch") && !Contains(message, "401") &&
             Contains(message, "429")) ==> text == RATE_TEXT
    ensures text in {TIMEOUT_TEXT, NETWORK_TEXT, KEY_TEXT, RATE_TEXT, FAILURE_PREFIX + message}
  {
    if name == "AbortError" then TIMEOUT_TEXT
    else if Contains(message, "Failed to fetch") then NETWORK_TEXT
    else if Contains(message, "401") then KEY_TEXT
    else if Contains(message, "429") then RATE_TEXT
    else FAILURE_PREFIX + message
  }

  /** What `getAiResponse` resolves to: it never rejects. A reply is shown as it is, a
      timeout as the timeout text, and a response that is not ok is never taken for a
      timeout. */
  function AiReply(outcome: ChatOutcome): (text: string)
    ensures outcome.Replied? ==> text == outcome.content
    ensures outcome.Thrown? && outcome.name == "AbortError" ==> text == TIMEOUT_TEXT
    ensures outcome.NotOk? ==> text != TIMEOUT_TEXT
  {
    match outcome
    case Replied(content) => content
    case NotOk(status, errorText) => ErrorReply("Error", NotOkMessage(status, errorText))
    case Thrown(name, message) => ErrorReply(name, message)
  }

  /** The error of a response that is not ok names its status code. */
  lemma StatusInMessage(status: nat, errorText: string)
    ensures Contains(NotOkMessage(status, errorText), NatToString(status))
  {
    var m := NotOkMessage(status, errorText);
    var i := |STATUS_PREFIX|;
    assert m[i..i + |NatToString(status)|] == NatToString(status);
    ContainsAt(m, NatToString(status), i);
  }

  /** A text that starts with characters none of which begins `sub`, followed by a text
      without `sub`, does not contain `sub`. */
  lemma NotContainsAfterPrefix(a: string, b: string, sub: string)
    requires |sub| > 0 && (forall i :: 0 <= i < |a| ==> a[i] != sub[0]) && !Contains(b, sub)
    ensures !Contains(a + b, sub)
  {
    ContainsIff(a + b, sub);
    ContainsIff(b, sub);
    forall i ensures !OccursAt(a + b, sub, i) {
      if 0 <= i && i + |sub| <= |a + b| {
        if i < |a| {
          assert (a + b)[i..i + |sub|][0] == a[i];
        } else {
          assert (a + b)[i..i + |sub|] == b[i - |a|..i - |a| + |sub|];
          assert !OccursAt(b, sub, i - |a|);
        }
      }
    }
  }

  /** A 401 response is reported as a rejected key, unless its body itself mentions a
      failed fetch. */
  lemma UnauthorizedIsKeyText(errorText: string)
    requires !Contains(errorText, "Failed to fetch")
    ensures AiReply(NotOk(401, errorText)) == KEY_TEXT
  {
    var digits := NatToString(401);
    assert NatToString(4) == "4";
    assert NatToString(40) == "40";
    assert digits == "401";
    var head := STATUS_PREFIX + digits + ": ";
    var m := NotOkMessage(401, errorText);
    assert m == head + errorText;
    assert forall i :: 0 <= i < |head| ==> head[i] != 'F';
    NotContainsAfterPrefix(head, errorText, "Failed to fetch");
    StatusInMessage(401, errorText);
  }

  /** A text whose characters never start `sub` except where the next one breaks it,
      followed by a text without `sub`, does not contain `sub`. */
  lemma NotContainsAfterPrefixPair(a: string, b: string, sub: string)
    requires |sub| >= 2 && !Contains(b, sub)
    requires forall i :: 0 <= i < |a| ==> a[i] != sub[0] || (i + 1 < |a| && a[i + 1] != sub[1])
    ensures !Contains(a + b, sub)
  {
    ContainsIff(a + b, sub);
    ContainsIff(b, sub);
    forall i ensures !OccursAt(a + b, sub, i) {
      if 0 <= i && i + |sub| <= |a + b| {
        if i < |a| {
          var w := (a + b)[i..i + |sub|];
          assert w[0] == a[i];
          if a[i] == sub[0] {
            assert i + 1 < |a| && a[i + 1] != sub[1];
            assert w[1] == a[i + 1];
          }
        } else {
          assert (a + b)[i..i + |sub|] == b[i - |a|..i - |a| + |sub|];
          assert !OccursAt(b, sub, i - |a|);
        }
      }
    }
  }

  /** The message of a 429 response: the fixed prefix, then the status and the body. */
  lemma TooManyRequestsMessage(errorText: string)
    ensures NatToString(429) == "429"
    ensures NotOkMessage(429, errorText) == STATUS_PREFIX + ("429: " + errorText)
  {
    assert NatToString(4) == "4";
    assert NatToString(42) == "42";
    assert NatToString(429) == "429";
  }

  /** The status and the body of a 429 message hold neither a failed fetch nor a 401 when
      the body holds neither. */
  lemma TooManyRequestsTail(errorText: string)
    requires !Contains(errorText, "Failed to fetch") && !Contains(errorText, "401")
    ensures !Contains("429: " + errorText, "Failed to fetch") && !Contains("429: " + errorText, "401")
  {
    var tail := "429: ";
    assert forall i :: 0 <= i < |tail| ==> tail[i] != 'F';
    NotContainsAfterPrefix(tail, errorText, "Failed to fetch");
    assert forall i :: 0 <= i < |tail| ==> tail[i] != '4' || (i + 1 < |tail| && tail[i + 1] != '0');
    NotContainsAfterPrefixPair(tail, errorText, "401");
  }

  /** A 429 response is reported as a rate limit, unless its body itself mentions a failed
      fetch or a 401. */
  lemma TooManyRequestsIsRateText(errorText: string)
    requires !Contains(errorText, "Failed to fetch") && !Contains(errorText, "401")
    ensures AiReply(NotOk(429, errorText)) == RATE_TEXT
  {
    var m := NotOkMessage(429, errorText);
    TooManyRequestsMessage(errorText);
    TooManyRequestsTail(errorText);
    StatusPrefixKeepsOut("429: " + errorText);
    StatusInMessage(429, errorText);
    assert !Contains(m, "Failed to fetch") && !Contains(m, "401") && Contains(m, "429");
  }

  /** The fixed prefix of a status message adds neither a failed fetch nor a 401. */
  lemma StatusPrefixKeepsOut(rest: string)
    requires !Contains(rest, "Failed to fetch") && !Contains(rest, "401")
    ensures !Contains(STATUS_PREFIX + rest, "Failed to fetch") && !Contains(STATUS_PREFIX + rest, "401")
  {
    assert forall i :: 0 <= i < |STATUS_PREFIX| ==> STATUS_PREFIX[i] != 'F' && STATUS_PREFIX[i] != '4';
    NotContainsAfterPrefix(STATUS_PREFIX, rest, "Failed to fetch");
    NotContainsAfterPrefix(STATUS_PREFIX, rest, "401");
  }

  /** Any other failure is shown with its own message after a fixed prefix. */
  lemma OtherFailuresShowMessage(name: string, message: string)
    requires name != "AbortError"
    requires !Contains(message, "Failed to fetch") && !Contains(message, "401") && !Contains(message, "429")
    ensures ErrorReply(name, message) == FAILURE_PREFIX + message
    ensures Contains(ErrorReply(name, message), message)
  {
    var t := FAILURE_PREFIX + message;
    assert t[|FAILURE_PREFIX|..|FAILURE_PREFIX| + |message|] == message;
    ContainsAt(t, message, |FAILURE_PREFIX|);
  }
}
