/**
 * Delivery of a notification in app/notifier.py: text in one or more messages,
 * or a photo with a caption and further messages, with a fall-back from photo
 * to text, and re-sending by the caller while the result is retryable. `log`
 * is what Telegram really received, which the sender cannot see.
 */
module TelegramDelivery {

  datatype Part = Photo(caption: string) | Text(chunk: string)

  /** How a call fails, as the exception tells it. */
  datatype Failure = ConnectTimeout | ReadTimeout | Refusal(code: nat, retryAfter: nat)

  /** `arrived` is the truth about a failed call. */
  datatype Reply = Accepted(messageId: nat) | Failed(failure: Failure, arrived: bool)

  /** The answer to the n-th call of the bot. */
  type Replies = nat -> Reply

  datatype Result = Result(ok: bool, retryAfter: nat, status: nat, partial: bool, messageId: nat)

  predicate OutcomeUnknown(r: Result) {
    !r.ok && (r.partial || r.status == 0 || r.status == 408)
  }

  predicate Retryable(r: Result) {
    !r.ok && !OutcomeUnknown(r) && (r.status == 429 || r.status >= 500)
  }

  /** `_telegram_send_error`: nothing was sent before a connection; anything may have been before a response. */
  function SendError(f: Failure): Result {
    match f
    case ConnectTimeout => Result(false, 0, 503, false, 0)
    case ReadTimeout => Result(false, 0, 408, false, 0)
    case Refusal(code, retryAfter) => Result(false, retryAfter, code, false, 0)
  }

  predicate AllowsFallback(r: Result) {
    400 <= r.status < 500 && r.status != 408 && r.status != 429
  }

  /** The assumption about Telegram: 429, 5xx and 4xx other than 408 mean "not delivered"; no connection means so too. */
  predicate HonestReply(reply: Reply) {
    reply.Failed? && reply.arrived ==>
      match reply.failure
      case ConnectTimeout => false
      case ReadTimeout => true
      case Refusal(code, _) => code < 400 || code == 408
  }

  ghost predicate Honest(replies: Replies) {
    forall n: nat :: HonestReply(replies(n))
  }

  datatype Wire = Wire(log: seq<Part>, calls: nat)

  function Attempted(w: Wire, part: Part, replies: Replies): Wire {
    var reply := replies(w.calls);
    Wire(if reply.Accepted? || reply.arrived then w.log + [part] else w.log, w.calls + 1)
  }

  /** The remaining messages of a text from the `i`-th on; `sent` counts those delivered for this result. */
  function SendTexts(w: Wire, chunks: seq<string>, i: nat, sent: nat, lastId: nat, replies: Replies): (Wire, Result)
    requires i <= |chunks|
    decreases |chunks| - i
  {
    if i == |chunks| then (w, Result(true, 0, 0, false, lastId))
    else
      var next := Attempted(w, Text(chunks[i]), replies);
      match replies(w.calls)
      case Accepted(id) => SendTexts(next, chunks, i + 1, sent + 1, id, replies)
      case Failed(failure, _) =>
        var error := SendError(failure);
        (next, if sent > 0 then error.(partial := true, messageId := lastId) else error)
  }

  /** A notification: its text as messages, and the photo with the text as caption and further messages. */
  datatype Notice = Notice(texts: seq<string>, photo: bool, captions: seq<string>)

  predicate Valid(n: Notice) {
    n.texts != [] && n.captions != []
  }

  function Texts(chunks: seq<string>): seq<Part> {
    seq(|chunks|, i requires 0 <= i < |chunks| => Text(chunks[i]))
  }

  function TextPlan(n: Notice): seq<Part> {
    Texts(n.texts)
  }

  function PhotoPlan(n: Notice): seq<Part>
    requires Valid(n)
  {
    [Photo(n.captions[0])] + Texts(n.captions[1..])
  }

  function Send(w: Wire, configured: bool, n: Notice, replies: Replies): (Wire, Result)
    requires Valid(n)
  {
    if !configured then (w, Result(false, 0, 503, false, 0))
    else if !n.photo then SendTexts(w, n.texts, 0, 0, 0, replies)
    else
      var next := Attempted(w, Photo(n.captions[0]), replies);
      match replies(w.calls)
      case Accepted(id) => SendTexts(next, n.captions, 1, 1, id, replies)
      case Failed(failure, _) =>
        var error := SendError(failure);
        if AllowsFallback(error) then SendTexts(next, n.texts, 0, 0, 0, replies) else (next, error)
  }

  /** The caller: send again while the result is retryable, a bounded number of times. */
  function Deliver(w: Wire, configured: bool, n: Notice, replies: Replies, retries: nat): (Wire, Result)
    requires Valid(n)
    decreases retries
  {
    var (next, result) := Send(w, configured, n, replies);
    if Retryable(result) && retries > 0 then Deliver(next, configured, n, replies, retries - 1) else (next, result)
  }

  class Bot {
    const replies: Replies
    const configured: bool
    ghost var log: seq<Part>
    var calls: nat

    ghost function View(): Wire
      reads this
    {
      Wire(log, calls)
    }

    constructor (replies: Replies, configured: bool)
      ensures View() == Wire([], 0) && this.replies == replies && this.configured == configured
    {
      this.replies, this.configured, log, calls := replies, configured, [], 0;
    }

    method Call(part: Part) returns (reply: Reply)
      modifies this
      ensures reply == replies(old(calls)) && View() == Attempted(old(View()), part, replies)
    {
      reply := replies(calls);
      log := if reply.Accepted? || reply.arrived then log + [part] else log;
      calls := calls + 1;
    }

    /** The loop of `_send_text_result`, and that of a photo's further captions. */
    method SendRest(chunks: seq<string>, from: nat, already: nat, firstId: nat) returns (result: Result)
      requires from <= |chunks|
      modifies this
      ensures (View(), result) == SendTexts(old(View()), chunks, from, already, firstId, replies)
    {
      var sent, lastId, i := already, firstId, from;
      while i < |chunks|
        invariant from <= i <= |chunks|
        invariant SendTexts(old(View()), chunks, from, already, firstId, replies) == SendTexts(View(), chunks, i, sent, lastId, replies)
      {
        var reply := Call(Text(chunks[i]));
        if reply.Failed? {
          result := SendError(reply.failure);
          if sent > 0 {
            result := result.(partial := true, messageId := lastId);
          }
          return;
        }
        lastId := reply.messageId;
        sent := sent + 1;
        i := i + 1;
      }
      result := Result(true, 0, 0, false, lastId);
    }

    /** `send_event_result`, `send_result` */
    method SendNotice(n: Notice) returns (result: Result)
      requires Valid(n)
      modifies this
      ensures (View(), result) == Send(old(View()), configured, n, replies)
    {
      if !configured {
        return Result(false, 0, 503, false, 0);
      }
      if !n.photo {
        result := SendRest(n.texts, 0, 0, 0);
        return;
      }
      var reply := Call(Photo(n.captions[0]));
      if reply.Failed? {
        result := SendError(reply.failure);
        if AllowsFallback(result) {
          result := SendRest(n.texts, 0, 0, 0);
        }
        return;
      }
      result := SendRest(n.captions, 1, 1, reply.messageId);
    }

    method DeliverNotice(n: Notice, retries: nat) returns (result: Result)
      requires Valid(n)
      modifies this
      ensures (View(), result) == Deliver(old(View()), configured, n, replies, retries)
    {
      result := SendNotice(n);
      var left := retries;
      while Retryable(result) && left > 0
        invariant left <= retries
        invariant Deliver(old(View()), configured, n, replies, retries) ==
                  if Retryable(result) && left > 0 then Deliver(View(), configured, n, replies, left - 1) else (View(), result)
        decreases left
      {
        result := SendNotice(n);
        left := left - 1;
      }
    }
  }

  // ----- at most once -----

  lemma TextsCons(chunks: seq<string>, i: nat, k: nat)
    requires i < k <= |chunks|
    ensures Texts(chunks[i..k]) == [Text(chunks[i])] + Texts(chunks[i + 1..k])
  {
    assert chunks[i..k] == [chunks[i]] + chunks[i + 1..k];
  }

  /** `w'` has the texts from `i` up to `k` more: all on success, and none when nothing is partial or unknown. */
  predicate SentUpTo(w: Wire, chunks: seq<string>, i: nat, sent: nat, w': Wire, r: Result, k: nat) {
    && i <= k <= |chunks| && w'.log == w.log + Texts(chunks[i..k])
    && (r.ok ==> k == |chunks|)
    && (!r.ok && !OutcomeUnknown(r) ==> sent == 0 && (k == i || r.status < 400))
    && (!r.ok && !r.partial ==> sent == 0)
  }

  lemma SentOneMore(w: Wire, next: Wire, chunks: seq<string>, i: nat, sent: nat, w': Wire, r: Result, k: nat)
    requires i < |chunks| && next.log == w.log + [Text(chunks[i])] && SentUpTo(next, chunks, i + 1, sent + 1, w', r, k)
    ensures SentUpTo(w, chunks, i, sent, w', r, k)
  {
    TextsCons(chunks, i, k);
    assert w.log + [Text(chunks[i])] + Texts(chunks[i + 1..k]) == w.log + Texts(chunks[i..k]);
  }

  lemma SentFailed(w: Wire, chunks: seq<string>, i: nat, sent: nat, lastId: nat, replies: Replies) returns (k: nat)
    requires i < |chunks| && replies(w.calls).Failed? && HonestReply(replies(w.calls))
    ensures var (w', r) := SendTexts(w, chunks, i, sent, lastId, replies); SentUpTo(w, chunks, i, sent, w', r, k)
  {
    k := if replies(w.calls).arrived then i + 1 else i;
    assert Texts(chunks[i..k]) == if replies(w.calls).arrived then [Text(chunks[i])] else [];
  }

  lemma {:induction false} SendTextsPrefix(w: Wire, chunks: seq<string>, i: nat, sent: nat, lastId: nat, replies: Replies) returns (k: nat)
    requires i <= |chunks| && Honest(replies)
    ensures var (w', r) := SendTexts(w, chunks, i, sent, lastId, replies); SentUpTo(w, chunks, i, sent, w', r, k)
    decreases |chunks| - i
  {
    if i == |chunks| {
      k := i;
      assert Texts(chunks[i..i]) == [];
    } else if replies(w.calls).Failed? {
      k := SentFailed(w, chunks, i, sent, lastId, replies);
    } else {
      var next := Attempted(w, Text(chunks[i]), replies);
      var id := replies(w.calls).messageId;
      k := SendTextsPrefix(next, chunks, i + 1, sent + 1, id, replies);
      var (w', r) := SendTexts(next, chunks, i + 1, sent + 1, id, replies);
      SentOneMore(w, next, chunks, i, sent, w', r, k);
    }
  }

  /** The delivered parts begin one of the two ways to send the notice, never a mixture. */
  predicate BeginsPlan(n: Notice, delivered: seq<Part>)
    requires Valid(n)
  {
    delivered <= TextPlan(n) || (n.photo && delivered <= PhotoPlan(n))
  }

  predicate IsPlan(n: Notice, delivered: seq<Part>)
    requires Valid(n)
  {
    delivered == TextPlan(n) || (n.photo && delivered == PhotoPlan(n))
  }

  /** What one attempt adds to the log: the beginning of a plan, all of it on success, nothing when told to retry. */
  ghost predicate Adds(n: Notice, w: Wire, w': Wire, r: Result)
    requires Valid(n)
  {
    exists delivered :: Added(n, w, w', r, delivered)
  }

  predicate Added(n: Notice, w: Wire, w': Wire, r: Result, delivered: seq<Part>)
    requires Valid(n)
  {
    && w'.log == w.log + delivered && BeginsPlan(n, delivered)
    && (r.ok ==> IsPlan(n, delivered))
    && (!r.ok && !OutcomeUnknown(r) && r.status >= 400 ==> delivered == [])
  }

  lemma TextsAdd(w: Wire, n: Notice, replies: Replies)
    requires Valid(n) && Honest(replies)
    ensures var (w', r) := SendTexts(w, n.texts, 0, 0, 0, replies); Adds(n, w, w', r)
  {
    var (w', r) := SendTexts(w, n.texts, 0, 0, 0, replies);
    var k := SendTextsPrefix(w, n.texts, 0, 0, 0, replies);
    assert n.texts[0..k] == n.texts[..k];
    assert Texts(n.texts[..k]) == TextPlan(n)[..k];
    assert Added(n, w, w', r, Texts(n.texts[0..k]));
  }

  lemma CaptionsAdd(w: Wire, n: Notice, replies: Replies, id: nat)
    requires Valid(n) && n.photo && Honest(replies) && replies(w.calls) == Accepted(id)
    ensures var (w', r) := SendTexts(Attempted(w, Photo(n.captions[0]), replies), n.captions, 1, 1, id, replies); Adds(n, w, w', r)
  {
    var next := Attempted(w, Photo(n.captions[0]), replies);
    var (w', r) := SendTexts(next, n.captions, 1, 1, id, replies);
    var k := SendTextsPrefix(next, n.captions, 1, 1, id, replies);
    var delivered := [Photo(n.captions[0])] + Texts(n.captions[1..k]);
    assert n.captions[1..][..k - 1] == n.captions[1..k];
    assert Texts(n.captions[1..k]) == Texts(n.captions[1..])[..k - 1];
    assert delivered == PhotoPlan(n)[..k];
    assert w'.log == w.log + delivered;
    assert Added(n, w, w', r, delivered);
  }

  lemma SendAdds(w: Wire, configured: bool, n: Notice, replies: Replies)
    requires Valid(n) && Honest(replies)
    ensures var (w', r) := Send(w, configured, n, replies); Adds(n, w, w', r)
  {
    var (w', r) := Send(w, configured, n, replies);
    assert HonestReply(replies(w.calls));
    if !configured {
      assert Added(n, w, w', r, []);
    } else if !n.photo {
      TextsAdd(w, n, replies);
    } else {
      var next := Attempted(w, Photo(n.captions[0]), replies);
      match replies(w.calls)
      case Accepted(id) => CaptionsAdd(w, n, replies, id);
      case Failed(failure, arrived) =>
        if AllowsFallback(SendError(failure)) {
          assert next.log == w.log;
          TextsAdd(next, n, replies);
          var delivered :| Added(n, next, w', r, delivered);
          assert Added(n, w, w', r, delivered);
        } else {
          assert [Photo(n.captions[0])] <= PhotoPlan(n);
          assert Added(n, w, w', r, if arrived then [Photo(n.captions[0])] else []);
        }
    }
  }

  /**
   * If Telegram is honest about refusals, then however often a notice is sent
   * again while the result is retryable, what arrives in all is the beginning
   * of one single plan, so no part arrives twice; success means the whole plan.
   */
  lemma {:induction false} DeliveredAtMostOnce(w: Wire, configured: bool, n: Notice, replies: Replies, retries: nat)
    requires Valid(n) && Honest(replies)
    ensures var (w', r) := Deliver(w, configured, n, replies, retries); Adds(n, w, w', r)
    decreases retries
  {
    SendAdds(w, configured, n, replies);
    var (next, r) := Send(w, configured, n, replies);
    if Retryable(r) && retries > 0 {
      var nothing :| Added(n, w, next, r, nothing);
      assert next.log == w.log;
      DeliveredAtMostOnce(next, configured, n, replies, retries - 1);
      var (w', r') := Deliver(next, configured, n, replies, retries - 1);
      var delivered :| Added(n, next, w', r', delivered);
      assert Added(n, w, w', r', delivered);
    }
  }

  /** A retryable result is never partial, unknown or successful: it says that nothing of this attempt arrived. */
  lemma RetryableMeansNothingArrived(w: Wire, configured: bool, n: Notice, replies: Replies)
    requires Valid(n) && Honest(replies) && Retryable(Send(w, configured, n, replies).1)
    ensures Send(w, configured, n, replies).0.log == w.log
  {
    SendAdds(w, configured, n, replies);
    var (w', r) := Send(w, configured, n, replies);
    var delivered :| Added(n, w, w', r, delivered);
  }

  /** The assumption is needed: a 429 for a message that did arrive is sent again. */
  lemma DishonestRefusalRepeats(chunk: string)
    ensures exists replies: Replies ::
              && (forall n: nat :: n > 0 ==> HonestReply(replies(n)))
              && var (w', r) := Deliver(Wire([], 0), true, Notice([chunk], false, [chunk]), replies, 1);
                 r.ok && w'.log == [Text(chunk), Text(chunk)]
  {
    var replies: Replies := (n: nat) => if n == 0 then Failed(Refusal(429, 1), true) else Accepted(n);
    var notice := Notice([chunk], false, [chunk]);
    var start := Wire([], 0);
    var once := Wire([Text(chunk)], 1);
    var twice := Wire([Text(chunk), Text(chunk)], 2);
    assert Attempted(start, Text(chunk), replies) == once;
    assert Send(start, true, notice, replies) == (once, Result(false, 1, 429, false, 0));
    assert Attempted(once, Text(chunk), replies) == twice;
    assert SendTexts(twice, [chunk], 1, 1, 1, replies) == (twice, Result(true, 0, 0, false, 1));
    assert Send(once, true, notice, replies) == (twice, Result(true, 0, 0, false, 1));
    assert Deliver(start, true, notice, replies, 1) == Deliver(once, true, notice, replies, 0);
  }
}
