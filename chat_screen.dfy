/**
 * The earlier revision of the chat screen (src/components/chat-screen.tsx).
 *
 * Here a sent message carries an optional `notFetched` flag, set on the
 * optimistic copy; the screen keeps its own list of the messages it sent, and
 * the request body posted for a send leaves the flag out. The outcome of the
 * post is ignored.
 */
module ChatScreen {
  import opened Wrappers
  import opened TimeFormat

  /** `notFetched?: boolean`: `None` when the field is absent. */
  datatype DraftMessage = DraftMessage(
    id: string, userId: string, content: string, username: string, date: Clock,
    notFetched: Option<bool>)

  /** The JSON body of the POST: the message fields apart from `notFetched`. */
  datatype PostBody = PostBody(id: string, username: string, userId: string, content: string, date: Clock)

  /** `!!message.notFetched`: an absent flag reads as false. */
  predicate ShowsNotFetched(m: DraftMessage) {
    m.notFetched == Some(true)
  }

  /** A body read back as a message, as `JSON.parse` gives it: no `notFetched` field. */
  function ParseBody(b: PostBody): DraftMessage {
    DraftMessage(b.id, b.userId, b.content, b.username, b.date, None)
  }

  /**
   * The body posted for `m`. Its date is a second reading of the clock,
   * `postedAt`, not necessarily the date of `m`.
   */
  function PostBodyFor(m: DraftMessage, postedAt: Clock): (b: PostBody)
    ensures ParseBody(b) == m.(date := postedAt, notFetched := None)
    ensures !ShowsNotFetched(ParseBody(b))
  {
    PostBody(m.id, m.username, m.userId, m.content, postedAt)
  }

  /** What one bubble on the screen shows. */
  datatype DraftView =
    | Mine(content: string, stamp: string, notFetched: bool)
    | Theirs(username: string, content: string, stamp: string)

  function RenderMessage(m: DraftMessage, userId: string): DraftView {
    if m.userId == userId then Mine(m.content, FormatClock(m.date), ShowsNotFetched(m))
    else Theirs(m.username, m.content, FormatClock(m.date))
  }

  /**
   * The messages in list order: own ones with the not-fetched marker when the
   * flag is set, others with their sender's name.
   */
  function Render(ms: seq<DraftMessage>, userId: string): (r: seq<DraftView>)
    ensures |r| == |ms|
    ensures forall i :: 0 <= i < |ms| ==> (r[i].Mine? <==> ms[i].userId == userId)
    ensures forall i :: 0 <= i < |ms| && r[i].Mine? ==> (r[i].notFetched <==> ms[i].notFetched == Some(true))
    ensures forall i :: 0 <= i < |ms| && r[i].Theirs? ==> r[i].username == ms[i].username
    ensures forall i :: 0 <= i < |ms| ==> r[i].content == ms[i].content && r[i].stamp == FormatClock(ms[i].date)
  {
    seq(|ms|, i requires 0 <= i < |ms| => RenderMessage(ms[i], userId))
  }

  /**
   * The `ChatScreen` component: the parent's message list, which it appends to
   * in place, its own list of sent messages, and the input text.
   */
  class Screen {
    const userId: string
    const username: string
    var messages: seq<DraftMessage>
    var myMessages: seq<DraftMessage>
    var input: string

    constructor (userId: string, username: string, messages: seq<DraftMessage>)
      ensures this.userId == userId && this.username == username
      ensures this.messages == messages && myMessages == [] && input == ""
    {
      this.userId := userId;
      this.username := username;
      this.messages := messages;
      myMessages := [];
      input := "";
    }

    /** The send button is enabled only while there is text. */
    predicate CanSend()
      reads this
    {
      input != ""
    }

    /** What the screen draws. */
    function View(): seq<DraftView>
      reads this
    {
      Render(messages, userId)
    }

    /** The input's change handler. */
    method Type(text: string)
      modifies this`input
      ensures input == text
    {
      input := text;
    }

    /**
     * The send handler: builds a message marked not fetched from the input and
     * the local identity, appends it to both lists, posts its body and clears
     * the input. With an empty input the button is disabled and nothing happens.
     */
    method Send(freshId: string, now: Clock, postedAt: Clock) returns (posted: Option<PostBody>)
      modifies this
      ensures !old(CanSend()) ==> posted == None
      ensures !old(CanSend()) ==>
        messages == old(messages) && myMessages == old(myMessages) && input == old(input)
      ensures old(CanSend()) ==>
        var m := DraftMessage(freshId, userId, old(input), username, now, Some(true));
        && messages == old(messages) + [m]
        && myMessages == old(myMessages) + [m]
        && posted == Some(PostBodyFor(m, postedAt))
        && input == "" && !CanSend()
      ensures old(CanSend()) ==>
        var v := View();
        |v| >= 1 && v[|v| - 1] == Mine(old(input), FormatClock(now), true)
    {
      if input == "" {
        return None;
      }
      var message := DraftMessage(freshId, userId, input, username, now, Some(true));
      myMessages := myMessages + [message];
      messages := messages + [message];
      posted := Some(PostBodyFor(message, postedAt));
      input := "";
    }
  }
}
