/** The chat page of `src/app/chat/page.tsx`: a list of messages, four to begin with,
    to which every sent message is appended with the next id. The ids are the render
    keys of the list. */
module Chat {
  import opened Wrappers
  import PlanMessage

  /** One entry of the message list. */
  datatype ChatMessage = ChatMessage(id: int, content: string, isUser: bool, userName: string)

  const UserName := "나"
  const BotName := "팩폭이"

  /** The message at index `i` has id `i + 1`. */
  predicate IdsArePositions(messages: seq<ChatMessage>) {
    forall i :: 0 <= i < |messages| ==> messages[i].id == i + 1
  }

  /** `initialMessages`: the user and the bot take turns, ids 1 to 4. */
  function InitialMessages(): (ms: seq<ChatMessage>)
    ensures |ms| == 4 && IdsArePositions(ms)
    ensures forall i :: 0 <= i < 4 ==> (ms[i].isUser <==> i % 2 == 0)
    ensures forall i :: 0 <= i < 4 ==> ms[i].userName == if ms[i].isUser then UserName else BotName
  {
    [ ChatMessage(1, "심심해", true, UserName),
      ChatMessage(2, "그래 보여", false, BotName),
      ChatMessage(3, "심심해", true, UserName),
      ChatMessage(4, "시험 계획 짜줬으니까 가서 공부나 해", false, BotName) ]
  }

  /** The updater of `handleSendMessage`: one message from the user is appended, with
      id `length + 1` and the content as given (empty content included); the earlier
      messages are kept as they were. */
  function Send(messages: seq<ChatMessage>, content: string): (r: seq<ChatMessage>)
    ensures |r| == |messages| + 1 && r[..|messages|] == messages
    ensures r[|messages|].id == |messages| + 1 && r[|messages|].content == content
    ensures r[|messages|].isUser && r[|messages|].userName == UserName
    ensures IdsArePositions(messages) ==> IdsArePositions(r)
  {
    messages + [ChatMessage(|messages| + 1, content, true, UserName)]
  }

  /** The list after sending `contents` one after another. */
  function SendAll(messages: seq<ChatMessage>, contents: seq<string>): seq<ChatMessage>
    decreases |contents|
  {
    if contents == [] then messages else SendAll(Send(messages, contents[0]), contents[1..])
  }

  /** Positions as ids make the ids pairwise distinct, so no two rendered messages
      share a key. */
  lemma PositionIdsAreUnique(messages: seq<ChatMessage>)
    requires IdsArePositions(messages)
    ensures forall i, j :: 0 <= i < j < |messages| ==> messages[i].id != messages[j].id
  {
  }

  /** Any sequence of sends keeps the earlier messages, appends one message per content
      in order, and keeps the ids equal to positions. */
  lemma {:induction false} SendAllAppends(messages: seq<ChatMessage>, contents: seq<string>)
    requires IdsArePositions(messages)
    ensures var r := SendAll(messages, contents);
            && |r| == |messages| + |contents| && r[..|messages|] == messages
            && IdsArePositions(r)
            && forall k :: 0 <= k < |contents| ==>
                 r[|messages| + k].content == contents[k] && r[|messages| + k].isUser
    decreases |contents|
  {
    if contents != [] {
      var next := Send(messages, contents[0]);
      SendAllAppends(next, contents[1..]);
      var r := SendAll(messages, contents);
      assert r == SendAll(next, contents[1..]);
      assert r[..|messages|] == r[..|next|][..|messages|];
      forall k | 0 <= k < |contents|
        ensures r[|messages| + k].content == contents[k] && r[|messages| + k].isUser
      {
        if k == 0 {
          assert r[|messages|] == r[..|next|][|messages|] == next[|messages|];
        } else {
          assert r[|messages| + k] == r[|next| + (k - 1)];
        }
      }
    }
  }

  /** The keys stay unique whatever the user sends. */
  lemma KeysStayUnique(contents: seq<string>)
    ensures var r := SendAll(InitialMessages(), contents);
            forall i, j :: 0 <= i < j < |r| ==> r[i].id != r[j].id
  {
    SendAllAppends(InitialMessages(), contents);
    PositionIdsAreUnique(SendAll(InitialMessages(), contents));
  }

  /** How the page renders an entry: `Message` without `plan` (so no plan button and no
      plan parsing) and without children. */
  function Render(m: ChatMessage): (v: PlanMessage.MessageView<()>)
    ensures v.body == PlanMessage.Text(m.content) && !v.planButton
    ensures v.avatarFallback == if m.isUser then "나" else "AI"
  {
    PlanMessage.Message(m.isUser, false, m.content, None)
  }

  class ChatPage {
    var messages: seq<ChatMessage>

    constructor ()
      ensures messages == InitialMessages()
    {
      messages := InitialMessages();
    }

    method HandleSendMessage(content: string)
      modifies this
      ensures messages == Send(old(messages), content)
    {
      messages := messages + [ChatMessage(|messages| + 1, content, true, UserName)];
    }
  }
}
