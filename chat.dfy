/**
 * The client-side message bookkeeping of the chat page (src/components/chat.tsx).
 *
 * A session holds the ordered message list, the ids whose publish failed
 * ("not delivered"), and the text being typed. Sending appends an optimistic
 * copy and publishes it; every event from the stream upserts the message by id,
 * which is how the sender's own optimistic copy is replaced by the echoed one.
 * The network is not modelled: the outcome of a publish call and the freshly
 * generated id are parameters.
 */
module Chat {
  import opened Wrappers
  import opened Sequences
  import opened TimeFormat

  datatype Message = Message(id: string, userId: string, content: string, username: string, date: Clock)

  /** How many entries of `ms` carry the id `id`. */
  function CountId(ms: seq<Message>, id: string): nat
    decreases |ms|
  {
    if ms == [] then 0 else (if ms[0].id == id then 1 else 0) + CountId(ms[1..], id)
  }

  lemma {:induction false} CountIdAppend(a: seq<Message>, b: seq<Message>, id: string)
    ensures CountId(a + b, id) == CountId(a, id) + CountId(b, id)
    decreases |a|
  {
    if a != [] {
      assert (a + b)[1..] == a[1..] + b;
      CountIdAppend(a[1..], b, id);
    } else {
      assert a + b == b;
    }
  }

  /**
   * `messages.filter((e) => e.id !== id)`. The contract determines the result:
   * it is a subsequence of `ms` holding no entry with that id, and it is as long
   * as the number of entries of `ms` with another id, so it keeps every one of
   * them, in their original order.
   */
  function WithoutId(ms: seq<Message>, id: string): (r: seq<Message>)
    ensures forall i :: 0 <= i < |r| ==> r[i].id != id
    ensures CountId(r, id) == 0
    ensures |r| == |ms| - CountId(ms, id)
    ensures IsSubsequence(r, ms)
    decreases |ms|
  {
    if ms == [] then []
    else if ms[0].id == id then WithoutId(ms[1..], id)
    else [ms[0]] + WithoutId(ms[1..], id)
  }

  lemma {:induction false} WithoutIdAppend(a: seq<Message>, b: seq<Message>, id: string)
    ensures WithoutId(a + b, id) == WithoutId(a, id) + WithoutId(b, id)
    decreases |a|
  {
    if a != [] {
      assert (a + b)[1..] == a[1..] + b;
      WithoutIdAppend(a[1..], b, id);
    } else {
      assert a + b == b;
    }
  }

  lemma {:induction false} WithoutIdAbsent(ms: seq<Message>, id: string)
    requires CountId(ms, id) == 0
    ensures WithoutId(ms, id) == ms
    decreases |ms|
  {
    if ms != [] {
      WithoutIdAbsent(ms[1..], id);
    }
  }

  /**
   * The receive handler's update: drop every entry with the incoming id and
   * append the incoming message at the end. An entry that was present is moved
   * to the end, not replaced where it stood.
   */
  function Upsert(ms: seq<Message>, m: Message): (r: seq<Message>)
    ensures |r| >= 1 && r[|r| - 1] == m
    ensures |r| == |ms| - CountId(ms, m.id) + 1
    ensures CountId(r, m.id) == 1
    ensures forall i :: 0 <= i < |r| && r[i].id == m.id ==> r[i] == m
    ensures WithoutId(r, m.id) == WithoutId(ms, m.id)
    ensures IsSubsequence(r[..|r| - 1], ms)
  {
    var kept := WithoutId(ms, m.id);
    CountIdAppend(kept, [m], m.id);
    WithoutIdAppend(kept, [m], m.id);
    WithoutIdAbsent(kept, m.id);
    assert (kept + [m])[..|kept|] == kept;
    kept + [m]
  }

  /** Receiving the same message a second time changes nothing. */
  lemma UpsertIdempotent(ms: seq<Message>, m: Message)
    ensures Upsert(Upsert(ms, m), m) == Upsert(ms, m)
  {
    var kept := WithoutId(ms, m.id);
    WithoutIdAppend(kept, [m], m.id);
    WithoutIdAbsent(kept, m.id);
  }

  /** A message whose id is not yet in the list is appended to it. */
  lemma UpsertAbsentAppends(ms: seq<Message>, m: Message)
    requires CountId(ms, m.id) == 0
    ensures Upsert(ms, m) == ms + [m]
  {
    WithoutIdAbsent(ms, m.id);
  }

  /** Splits a list around index k, for counting and for filtering. */
  lemma SplitAt(ms: seq<Message>, k: nat, id: string)
    requires k < |ms|
    ensures CountId(ms, id) == CountId(ms[..k], id) + CountId([ms[k]], id) + CountId(ms[k + 1..], id)
    ensures WithoutId(ms, id) == WithoutId(ms[..k], id) + WithoutId([ms[k]], id) + WithoutId(ms[k + 1..], id)
  {
    var pre, post := ms[..k], ms[k + 1..];
    assert ms == (pre + [ms[k]]) + post;
    CountIdAppend(pre + [ms[k]], post, id);
    CountIdAppend(pre, [ms[k]], id);
    WithoutIdAppend(pre + [ms[k]], post, id);
    WithoutIdAppend(pre, [ms[k]], id);
  }

  lemma Singleton(x: Message, id: string)
    ensures CountId([x], id) == if x.id == id then 1 else 0
    ensures WithoutId([x], id) == if x.id == id then [] else [x]
  {
    assert [x][1..] == [];
  }

  /** Filtering out an id held only at index k removes just that entry. */
  lemma WithoutIdSingle(ms: seq<Message>, k: nat, id: string)
    requires k < |ms| && ms[k].id == id && CountId(ms, id) == 1
    ensures WithoutId(ms, id) == ms[..k] + ms[k + 1..]
  {
    var pre, post := ms[..k], ms[k + 1..];
    SplitAt(ms, k, id);
    Singleton(ms[k], id);
    assert CountId(pre, id) == 0 && CountId(post, id) == 0;
    WithoutIdAbsent(pre, id);
    WithoutIdAbsent(post, id);
    calc {
      WithoutId(ms, id);
      WithoutId(pre, id) + WithoutId([ms[k]], id) + WithoutId(post, id);
      pre + [] + post;
      { assert pre + [] == pre; }
      pre + post;
    }
  }

  /** A message present once, at index k, is taken out there and put at the end. */
  lemma UpsertPresentMovesToEnd(ms: seq<Message>, k: nat, m: Message)
    requires k < |ms| && ms[k].id == m.id && CountId(ms, m.id) == 1
    ensures Upsert(ms, m) == ms[..k] + ms[k + 1..] + [m]
  {
    WithoutIdSingle(ms, k, m.id);
  }

  /**
   * The optimistic copy appended by a send is replaced by the echoed copy with
   * the same id; the rest of the list is untouched.
   */
  lemma EchoReplacesOptimisticCopy(ms: seq<Message>, local: Message, echo: Message)
    requires CountId(ms, local.id) == 0 && echo.id == local.id
    ensures Upsert(ms + [local], echo) == ms + [echo]
  {
    WithoutIdAppend(ms, [local], local.id);
    WithoutIdAbsent(ms, local.id);
  }

  /** `ids.filter((e) => e !== x)` on the not-delivered list. */
  function RemoveAll(ids: seq<string>, x: string): (r: seq<string>)
    ensures x !in r
    ensures multiset(r) == multiset(ids)[x := 0]
    ensures IsSubsequence(r, ids)
    decreases |ids|
  {
    if ids == [] then []
    else
      assert ids == [ids[0]] + ids[1..];
      if ids[0] == x then RemoveAll(ids[1..], x)
      else [ids[0]] + RemoveAll(ids[1..], x)
  }

  /** What a publish attempt of `sendMessage` can come to. */
  datatype PublishOutcome =
    | Responded(status: int) // the fetch promise resolved with this status
    | Threw                  // the fetch call threw synchronously
    | Rejected               // the fetch promise rejected; nothing handles it

  predicate Failed(o: PublishOutcome) {
    o.Threw? || (o.Responded? && o.status != 200)
  }

  predicate Succeeded(o: PublishOutcome) {
    o.Responded? && o.status == 200
  }

  /**
   * The not-delivered list that `sendMessage` installs once the attempt for
   * `message` has come to `o`, computed from the list it was handed.
   */
  function AfterPublish(message: Message, notDelivered: seq<string>, o: PublishOutcome): (r: seq<string>)
    ensures Failed(o) ==> |r| == |notDelivered| + 1 && r[..|notDelivered|] == notDelivered
    ensures Failed(o) ==> r[|notDelivered|] == message.id
    ensures Failed(o) ==> multiset(r)[message.id] == multiset(notDelivered)[message.id] + 1
    ensures Succeeded(o) ==> multiset(r) == multiset(notDelivered)[message.id := 0]
    ensures Succeeded(o) ==> IsSubsequence(r, notDelivered)
    ensures o.Rejected? ==> r == notDelivered
    ensures message.id in r <==> Failed(o) || (o.Rejected? && message.id in notDelivered)
  {
    match o
    case Responded(status) =>
      if status != 200 then
        assert (notDelivered + [message.id])[..|notDelivered|] == notDelivered;
        notDelivered + [message.id]
      else RemoveAll(notDelivered, message.id)
    case Threw =>
      assert (notDelivered + [message.id])[..|notDelivered|] == notDelivered;
      notDelivered + [message.id]
    case Rejected => notDelivered
  }

  /** What one bubble on the screen shows. */
  datatype View =
    | Mine(content: string, stamp: string, resend: bool)
    | Theirs(username: string, content: string, stamp: string)

  function RenderMessage(m: Message, userId: string, notDelivered: seq<string>): View {
    if m.userId == userId then Mine(m.content, FormatClock(m.date), m.id in notDelivered)
    else Theirs(m.username, m.content, FormatClock(m.date))
  }

  /**
   * The message list as the screen draws it, in list order: own messages with
   * the resend marker when their id is not delivered, others with their sender.
   */
  function Render(ms: seq<Message>, userId: string, notDelivered: seq<string>): (r: seq<View>)
    ensures |r| == |ms|
    ensures forall i :: 0 <= i < |ms| ==> (r[i].Mine? <==> ms[i].userId == userId)
    ensures forall i :: 0 <= i < |ms| && r[i].Mine? ==> (r[i].resend <==> ms[i].id in notDelivered)
    ensures forall i :: 0 <= i < |ms| && r[i].Theirs? ==> r[i].username == ms[i].username
    ensures forall i :: 0 <= i < |ms| ==> r[i].content == ms[i].content && r[i].stamp == FormatClock(ms[i].date)
  {
    seq(|ms|, i requires 0 <= i < |ms| => RenderMessage(ms[i], userId, notDelivered))
  }

  /**
   * Receiving the echo of an own message does not touch the not-delivered
   * ids: if its publish had failed, the echoed bubble still shows resend.
   */
  lemma EchoKeepsResendMarker(ms: seq<Message>, m: Message, userId: string, notDelivered: seq<string>)
    requires m.userId == userId && m.id in notDelivered
    ensures var v := Render(Upsert(ms, m), userId, notDelivered);
      |v| >= 1 && v[|v| - 1].Mine? && v[|v| - 1].resend
  {
  }

  /**
   * One browser session: the `Chat` component's message list and identity,
   * together with the `ChatScreen` component's input text and not-delivered ids.
   */
  class ChatSession {
    const userId: string
    const username: string
    var messages: seq<Message>
    var notDelivered: seq<string>
    var input: string

    constructor (userId: string, username: string)
      ensures this.userId == userId && this.username == username
      ensures messages == [] && notDelivered == [] && input == ""
    {
      this.userId := userId;
      this.username := username;
      messages := [];
      notDelivered := [];
      input := "";
    }

    /** The send button is enabled only while there is text. */
    predicate CanSend()
      reads this
    {
      input != ""
    }

    /** What the screen draws for this session. */
    function View(): seq<View>
      reads this
    {
      Render(messages, userId, notDelivered)
    }

    /** The input's change handler. */
    method Type(text: string)
      modifies this`input
      ensures input == text
    {
      input := text;
    }

    /**
     * The send handler: builds the message from the input and the local
     * identity, appends it to the list, publishes it and clears the input.
     * With an empty input the button is disabled and nothing happens.
     */
    method Send(freshId: string, now: Clock, outcome: PublishOutcome) returns (sent: Option<Message>)
      requires CountId(messages, freshId) == 0
      modifies this
      ensures !old(CanSend()) ==> sent == None
      ensures !old(CanSend()) ==>
        messages == old(messages) && notDelivered == old(notDelivered) && input == old(input)
      ensures old(CanSend()) ==>
        sent == Some(Message(freshId, userId, old(input), username, now))
      ensures old(CanSend()) ==>
        messages == old(messages) + [sent.value] &&
        notDelivered == AfterPublish(sent.value, old(notDelivered), outcome) &&
        input == "" && !CanSend()
      ensures old(CanSend()) ==> CountId(messages, freshId) == 1
      ensures old(CanSend()) ==>
        var v := View();
        |v| >= 1 && v[|v| - 1] == Mine(old(input), FormatClock(now), Failed(outcome) || (outcome.Rejected? && freshId in old(notDelivered)))
    {
      if input == "" {
        return None;
      }
      var message := Message(freshId, userId, input, username, now);
      CountIdAppend(messages, [message], freshId);
      messages := messages + [message];
      notDelivered := AfterPublish(message, notDelivered, outcome);
      input := "";
      sent := Some(message);
    }

    /** The stream listener: upsert the incoming message by id. */
    method Receive(m: Message)
      modifies this`messages
      ensures messages == Upsert(old(messages), m)
      ensures m.userId == userId && m.id in notDelivered ==>
        var v := View();
        |v| >= 1 && v[|v| - 1].Mine? && v[|v| - 1].resend
    {
      messages := Upsert(messages, m);
    }

    /**
     * The resend link, shown under an own message whose id is not delivered:
     * publishes the identical message again and applies the outcome.
     */
    method Resend(m: Message, outcome: PublishOutcome) returns (published: Message)
      requires m in messages && m.userId == userId && m.id in notDelivered
      modifies this`notDelivered
      ensures published == m
      ensures notDelivered == AfterPublish(m, old(notDelivered), outcome)
      ensures Succeeded(outcome) ==> m.id !in notDelivered
    {
      published := m;
      notDelivered := AfterPublish(m, notDelivered, outcome);
    }
  }
}
