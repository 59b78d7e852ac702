/**
 * The conversational intake form: a transcript of messages that grows by
 * one user turn and one streamed assistant reply per submission, and a
 * check, run whenever the transcript changes, for the completion marker
 * `INTAKE_COMPLETE::` followed by a JSON object in the last assistant
 * message.
 *
 * Message ids come from the clock in the form; here they are given.
 * The streamed reply is given as its decoded chunks, in arrival order.
 * Parsing the extracted text as JSON is not part of this model: the model
 * stops at the candidate text.
 */
module ChatIntake {
  import opened Options
  import opened JsString

  datatype Role = User | Assistant

  datatype Message = Message(id: string, role: Role, content: string)

  /** What the form hands to its owner once the marker has been seen. */
  datatype Completion = Completion(candidate: string, transcript: seq<Message>)

  const Marker: string := "INTAKE_COMPLETE::"

  const Greeting: Message :=
    Message("1", Assistant, "Hi! I'm your AI assistant. To start, what's your full name?")

  function Last(messages: seq<Message>): Message
    requires messages != []
  {
    messages[|messages| - 1]
  }

  /** `t` is everything in `content` after the first occurrence of the marker. */
  ghost predicate MarkerTail(content: string, t: string) {
    && |t| + |Marker| <= |content|
    && FirstOccurrence(content, Marker, |content| - |t| - |Marker|)
    && t == content[|content| - |t|..]
  }

  /** The text following the first marker, if the marker occurs at all. */
  function AfterMarker(content: string): (r: Option<string>)
    ensures r.None? <==> !Contains(content, Marker)
    ensures r.Some? ==> MarkerTail(content, r.value)
  {
    var markerAt := IndexOf(content, Marker);
    if markerAt == -1 then None
    else Some(Substring(content, markerAt + |Marker|, |content|))
  }

  /**
   * The span from the first `{` to the last `}` of `tail`. Nothing when
   * either brace is missing. When the last `}` comes before the first `{`,
   * `substring` swaps its bounds and the result is the text strictly
   * between the two braces.
   */
  function BraceSpan(tail: string): (r: Option<string>)
    ensures r.None? <==> !Contains(tail, "{") || !Contains(tail, "}")
    ensures r.Some? ==> Contains(tail, r.value)
    ensures forall f, l :: FirstOccurrence(tail, "{", f) && LastOccurrence(tail, "}", l) ==>
      r == Some(if f <= l then tail[f..l + 1] else tail[l + 1..f])
  {
    var firstBrace := IndexOf(tail, "{");
    var lastBrace := LastIndexOf(tail, "}");
    if firstBrace != -1 && lastBrace != -1 then
      var s := Substring(tail, firstBrace, lastBrace + 1);
      assert OccursAt(tail, s, if firstBrace <= lastBrace + 1 then firstBrace else lastBrace + 1);
      Some(s)
    else
      None
  }

  /**
   * The candidate JSON text the completion check finds in a transcript:
   * only a last message from the assistant is examined, it must contain
   * the marker, and the braces are searched for after the first marker.
   */
  function IntakeCandidate(messages: seq<Message>): (r: Option<string>)
    ensures messages == [] || Last(messages).role != Assistant ==> r.None?
    ensures r.Some? ==> Contains(Last(messages).content, Marker)
    ensures messages != [] && Last(messages).role == Assistant ==>
      forall t :: MarkerTail(Last(messages).content, t) ==> r == BraceSpan(t)
  {
    if messages != [] && Last(messages).role == Assistant then
      match AfterMarker(Last(messages).content)
      case None => None
      case Some(tail) => BraceSpan(tail)
    else
      None
  }

  /**
   * When the first `{` comes before the last `}`, the candidate runs from
   * that `{` to that `}` inclusive, and so starts and ends with a brace.
   */
  lemma {:induction false} BraceSpanDelimited(tail: string, f: int, l: int)
    requires FirstOccurrence(tail, "{", f) && LastOccurrence(tail, "}", l) && f < l
    ensures BraceSpan(tail).Some?
    ensures var v := BraceSpan(tail).value;
      |v| == l + 1 - f && v[0] == '{' && v[|v| - 1] == '}'
  {
    OccursAtChar(tail, '{', f);
    OccursAtChar(tail, '}', l);
  }

  /**
   * When the last `}` comes before the first `{`, the candidate is the
   * text strictly between them, which holds no brace at all.
   */
  lemma {:induction false} BraceSpanInverted(tail: string, f: int, l: int)
    requires FirstOccurrence(tail, "{", f) && LastOccurrence(tail, "}", l) && l < f
    ensures BraceSpan(tail).Some?
    ensures var v := BraceSpan(tail).value;
      |v| == f - l - 1 && '{' !in v && '}' !in v
  {
    var v := tail[l + 1..f];
    assert BraceSpan(tail) == Some(v);
    forall i | 0 <= i < |v|
      ensures v[i] != '{' && v[i] != '}'
    {
      var k := l + 1 + i;
      assert v[i] == tail[k];
      assert !OccursAt(tail, "{", k);
      assert !OccursAt(tail, "}", k);
      OccursAtChar(tail, '{', k);
      OccursAtChar(tail, '}', k);
    }
  }

  /** Every message carrying `id` gets `content`; everything else is kept. */
  function ReplaceContent(messages: seq<Message>, id: string, content: string): (r: seq<Message>)
    ensures |r| == |messages|
    ensures forall k :: 0 <= k < |r| ==>
      && r[k].id == messages[k].id
      && r[k].role == messages[k].role
      && r[k].content == (if messages[k].id == id then content else messages[k].content)
  {
    seq(|messages|, k requires 0 <= k < |messages| =>
      if messages[k].id == id then messages[k].(content := content) else messages[k])
  }

  /** Replacing twice by the same id leaves only the second content. */
  lemma ReplaceContentTwice(messages: seq<Message>, id: string, c1: string, c2: string)
    ensures ReplaceContent(ReplaceContent(messages, id, c1), id, c2) == ReplaceContent(messages, id, c2)
  {
    var lhs := ReplaceContent(ReplaceContent(messages, id, c1), id, c2);
    var rhs := ReplaceContent(messages, id, c2);
    assert forall k :: 0 <= k < |lhs| ==> lhs[k] == rhs[k];
  }

  /** A transcript with no message carrying `id` is left as it is. */
  lemma ReplaceContentAbsent(messages: seq<Message>, id: string, content: string)
    requires forall k :: 0 <= k < |messages| ==> messages[k].id != id
    ensures ReplaceContent(messages, id, content) == messages
  {
    var r := ReplaceContent(messages, id, content);
    assert forall k :: 0 <= k < |r| ==> r[k] == messages[k];
  }

  /** The in-order concatenation of the decoded chunks. */
  function Concat(chunks: seq<string>): string {
    if chunks == [] then "" else Concat(chunks[..|chunks| - 1]) + chunks[|chunks| - 1]
  }

  /**
   * The transcript once `chunks` have been streamed into the placeholder
   * `id`: untouched before the first chunk, and afterwards every message
   * carrying `id` holds everything received so far.
   */
  function Streamed(base: seq<Message>, id: string, chunks: seq<string>): seq<Message> {
    if chunks == [] then base else ReplaceContent(base, id, Concat(chunks))
  }

  /** One more chunk: the accumulated reply grows by it and is written over the previous one. */
  lemma StreamStep(base: seq<Message>, id: string, chunks: seq<string>, chunk: string)
    ensures Concat(chunks + [chunk]) == Concat(chunks) + chunk
    ensures Streamed(base, id, chunks + [chunk]) == ReplaceContent(Streamed(base, id, chunks), id, Concat(chunks) + chunk)
  {
    assert (chunks + [chunk])[..|chunks|] == chunks;
    if chunks != [] {
      ReplaceContentTwice(base, id, Concat(chunks), Concat(chunks) + chunk);
    }
  }

  /**
   * While a reply streams into a placeholder appended last, the completion
   * check sees exactly the reply accumulated so far, whatever came before.
   */
  lemma StreamedReplyIsScanned(before: seq<Message>, id: string, chunks: seq<string>)
    ensures IntakeCandidate(Streamed(before + [Message(id, Assistant, "")], id, chunks))
         == IntakeCandidate([Message(id, Assistant, Concat(chunks))])
  {
    var m := Streamed(before + [Message(id, Assistant, "")], id, chunks);
    assert Last(m) == Message(id, Assistant, Concat(chunks));
  }

  /**
   * When no earlier message shares the placeholder's id, a finished
   * submission leaves the earlier transcript as it was, then the user
   * message, then the assistant reply made of all chunks in order.
   */
  lemma StreamedAppendsReply(before: seq<Message>, user: Message, id: string, chunks: seq<string>)
    requires forall k :: 0 <= k < |before| ==> before[k].id != id
    requires user.id != id
    ensures Streamed(before + [user, Message(id, Assistant, "")], id, chunks)
         == before + [user, Message(id, Assistant, Concat(chunks))]
  {
    var base := before + [user, Message(id, Assistant, "")];
    var want := before + [user, Message(id, Assistant, Concat(chunks))];
    if chunks != [] {
      var got := ReplaceContent(base, id, Concat(chunks));
      assert forall k :: 0 <= k < |got| ==> got[k] == want[k];
    }
  }

  /** The form's state: the transcript and the text being typed. */
  class IntakeForm {
    var messages: seq<Message>
    var input: string

    /** A fresh form greets the client and has an empty input box. */
    constructor ()
      ensures messages == [Greeting] && input == ""
    {
      messages := [Greeting];
      input := "";
    }

    /** Typing replaces the input text. */
    method Type(text: string)
      modifies this`input
      ensures input == text
    {
      input := text;
    }

    /**
     * Submitting: an empty input does nothing. Otherwise the input becomes
     * a user message appended to the transcript and the box is cleared.
     * When the chat endpoint answers with a body (`reply`), an empty
     * assistant placeholder with id `assistantId` is appended and the
     * decoded chunks are accumulated into it, one at a time.
     */
    method Submit(userId: string, assistantId: string, reply: Option<seq<string>>)
      modifies this
      ensures old(input) == "" ==> messages == old(messages) && input == old(input)
      ensures old(input) != "" ==> input == ""
      ensures old(input) != "" && reply.None? ==>
        messages == old(messages) + [Message(userId, User, old(input))]
      ensures old(input) != "" && reply.Some? ==>
        messages == Streamed(old(messages) + [Message(userId, User, old(input)), Message(assistantId, Assistant, "")],
                             assistantId, reply.value)
    {
      if input == "" {
        return;
      }
      messages := messages + [Message(userId, User, input)];
      input := "";
      if reply.None? {
        return;
      }
      var chunks := reply.value;
      var assistantResponse := "";
      messages := messages + [Message(assistantId, Assistant, "")];
      ghost var base := messages;
      var i := 0;
      while i < |chunks|
        invariant i <= |chunks|
        invariant input == ""
        invariant assistantResponse == Concat(chunks[..i])
        invariant messages == Streamed(base, assistantId, chunks[..i])
      {
        StreamStep(base, assistantId, chunks[..i], chunks[i]);
        assert chunks[..i + 1] == chunks[..i] + [chunks[i]];
        assistantResponse := assistantResponse + chunks[i];
        messages := ReplaceContent(messages, assistantId, assistantResponse);
        i := i + 1;
      }
      assert chunks[..i] == chunks;
    }

    /**
     * The completion check that runs after every change of the transcript:
     * when a candidate is found, it is handed over with the whole transcript.
     */
    method CheckCompletion() returns (done: Option<Completion>)
      ensures done.Some? <==> IntakeCandidate(messages).Some?
      ensures done.Some? ==> done.value == Completion(IntakeCandidate(messages).value, messages)
    {
      var candidate := IntakeCandidate(messages);
      if candidate.Some? {
        done := Some(Completion(candidate.value, messages));
      } else {
        done := None;
      }
    }
  }
}
