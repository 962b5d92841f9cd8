/**
 * What sending a notification does, said of the answers of Telegram alone:
 * which calls are made, what is delivered and what is reported, and that a
 * notification gets through once the trouble is over.
 */
module TelegramAttempts {
  import opened TelegramDelivery

  /** The report of a failed call; `partial` when messages were delivered before it, the last under `messageId`. */
  predicate Reports(r: Result, f: Failure, partial: bool, messageId: nat) {
    && !r.ok && r.partial == partial && r.messageId == (if partial then messageId else 0)
    && match f
       case ConnectTimeout => r.status == 503 && r.retryAfter == 0
       case ReadTimeout => r.status == 408 && r.retryAfter == 0
       case Refusal(code, after) => r.status == code && r.retryAfter == after
  }

  /** What arrived is unknown if part of it did, or if the failed call timed out or answered nothing sensible. */
  lemma UnknownIff(r: Result, f: Failure, partial: bool, messageId: nat)
    requires Reports(r, f, partial, messageId)
    ensures OutcomeUnknown(r) <==> partial || f.ReadTimeout? || (f.Refusal? && (f.code == 0 || f.code == 408))
  {
  }

  /** The calls from `c` up to `d` are accepted. */
  predicate AcceptedUpTo(replies: Replies, c: nat, d: nat) {
    forall n: nat :: c <= n < d ==> replies(n).Accepted?
  }

  /** What a pass over the messages from `i` on does, if message `k` is the first that fails, or there is none. */
  predicate Passes(w: Wire, chunks: seq<string>, i: nat, sent: nat, lastId: nat, replies: Replies, k: nat, w': Wire, r: Result) {
    && i <= k <= |chunks| && AcceptedUpTo(replies, w.calls, w.calls + (k - i))
    && var last := if k > i then replies(w.calls + (k - i) - 1) else Accepted(lastId);
       && last.Accepted?
       && if k == |chunks| then
            w'.log == w.log + Texts(chunks[i..]) && w'.calls == w.calls + (k - i) && r == Result(true, 0, 0, false, last.messageId)
          else
            var reply := replies(w.calls + (k - i));
            && reply.Failed? && w'.calls == w.calls + (k - i) + 1
            && w'.log == w.log + Texts(chunks[i..k]) + (if reply.arrived then [Text(chunks[k])] else [])
            && Reports(r, reply.failure, sent + (k - i) > 0, last.messageId)
  }

  /** Messages go out in order, each once, up to the first that fails. */
  lemma {:induction false} TextsMean(w: Wire, chunks: seq<string>, i: nat, sent: nat, lastId: nat, replies: Replies) returns (k: nat)
    requires i <= |chunks|
    ensures var (w', r) := SendTexts(w, chunks, i, sent, lastId, replies); Passes(w, chunks, i, sent, lastId, replies, k, w', r)
    decreases |chunks| - i
  {
    if i == |chunks| {
      k := i;
      assert Texts(chunks[i..]) == [];
    } else if replies(w.calls).Failed? {
      k := i;
      assert Texts(chunks[i..i]) == [];
    } else {
      var next := Attempted(w, Text(chunks[i]), replies);
      var id := replies(w.calls).messageId;
      k := TextsMean(next, chunks, i + 1, sent + 1, id, replies);
      var (w', r) := SendTexts(next, chunks, i + 1, sent + 1, id, replies);
      PassLonger(w, next, chunks, i, sent, lastId, replies, k, w', r);
    }
  }

  lemma PassLonger(w: Wire, next: Wire, chunks: seq<string>, i: nat, sent: nat, lastId: nat, replies: Replies, k: nat, w': Wire, r: Result)
    requires i < |chunks| && replies(w.calls).Accepted? && next == Wire(w.log + [Text(chunks[i])], w.calls + 1)
    requires Passes(next, chunks, i + 1, sent + 1, replies(w.calls).messageId, replies, k, w', r)
    ensures Passes(w, chunks, i, sent, lastId, replies, k, w', r)
  {
    TextsCons(chunks, i, k);
    assert chunks[i..|chunks|] == chunks[i..] && chunks[i + 1..|chunks|] == chunks[i + 1..];
    assert w.log + [Text(chunks[i])] + Texts(chunks[i + 1..k]) == w.log + Texts(chunks[i..k]);
  }

  /** A refusal of the photo that tells to try text: a client error, but no time-out and no rate limit. */
  predicate PhotoRefused(reply: Reply) {
    reply.Failed? && reply.failure.Refusal? && 400 <= reply.failure.code <= 499 && reply.failure.code != 408 && reply.failure.code != 429
  }

  function Delivered(w: Wire, part: Part, reply: Reply): seq<Part> {
    if reply.Failed? && !reply.arrived then w.log else w.log + [part]
  }

  /**
   * One attempt: nothing at all when not configured; the messages; or the photo,
   * then its further captions, with the messages instead if the photo is refused.
   */
  lemma SendMeans(w: Wire, configured: bool, n: Notice, replies: Replies) returns (k: nat)
    requires Valid(n)
    ensures var (w', r) := Send(w, configured, n, replies);
            if !configured then w' == w && r == Result(false, 0, 503, false, 0)
            else if !n.photo then Passes(w, n.texts, 0, 0, 0, replies, k, w', r)
            else
              var photo := replies(w.calls);
              var next := Wire(Delivered(w, Photo(n.captions[0]), photo), w.calls + 1);
              if photo.Accepted? then Passes(next, n.captions, 1, 1, photo.messageId, replies, k, w', r)
              else if PhotoRefused(photo) then Passes(next, n.texts, 0, 0, 0, replies, k, w', r)
              else w' == next && Reports(r, photo.failure, false, 0)
  {
    k := 0;
    if configured && !n.photo {
      k := TextsMean(w, n.texts, 0, 0, 0, replies);
    } else if configured {
      var photo := replies(w.calls);
      var next := Wire(Delivered(w, Photo(n.captions[0]), photo), w.calls + 1);
      if photo.Accepted? {
        k := TextsMean(next, n.captions, 1, 1, photo.messageId, replies);
      } else if PhotoRefused(photo) {
        k := TextsMean(next, n.texts, 0, 0, 0, replies);
      }
    }
  }

  /** Worth another attempt: refused by a rate limit or a server error before any message was delivered. */
  predicate Again(r: Result) {
    !r.ok && !r.partial && (r.status == 429 || r.status >= 500)
  }

  predicate IsAttempt(w: Wire, configured: bool, n: Notice, replies: Replies, w': Wire, r: Result)
    requires Valid(n)
  {
    (w', r) == Send(w, configured, n, replies)
  }

  /** Attempt `i` leads from `wires[i]` to `wires[i + 1]`, and another one follows only if its report says so. */
  ghost predicate Attempts(wires: seq<Wire>, results: seq<Result>, configured: bool, n: Notice, replies: Replies)
    requires Valid(n)
  {
    && |wires| == |results| + 1 && 1 <= |results|
    && (forall i :: 0 <= i < |results| ==> IsAttempt(wires[i], configured, n, replies, wires[i + 1], results[i]))
    && (forall i :: 0 <= i < |results| - 1 ==> Again(results[i]))
  }

  /** Attempts follow one another while the report says to try again, and no longer, and at most as often as allowed. */
  lemma {:induction false} DeliverMeans(w: Wire, configured: bool, n: Notice, replies: Replies, retries: nat)
      returns (wires: seq<Wire>, results: seq<Result>)
    requires Valid(n)
    ensures Attempts(wires, results, configured, n, replies) && |results| <= retries + 1 && wires[0] == w
    ensures Again(results[|results| - 1]) ==> |results| == retries + 1
    ensures Deliver(w, configured, n, replies, retries) == (wires[|results|], results[|results| - 1])
    decreases retries
  {
    var (next, r) := Send(w, configured, n, replies);
    DeliverStep(w, configured, n, replies, retries);
    if Again(r) && retries > 0 {
      var ws, rs := DeliverMeans(next, configured, n, replies, retries - 1);
      wires, results := [w] + ws, [r] + rs;
      AttemptsCons(w, r, ws, rs, configured, n, replies);
    } else {
      wires, results := [w, next], [r];
    }
  }

  lemma DeliverStep(w: Wire, configured: bool, n: Notice, replies: Replies, retries: nat)
    requires Valid(n)
    ensures var (next, r) := Send(w, configured, n, replies);
            Deliver(w, configured, n, replies, retries) ==
            if Again(r) && retries > 0 then Deliver(next, configured, n, replies, retries - 1) else (next, r)
  {
  }

  lemma AttemptsCons(w: Wire, r: Result, ws: seq<Wire>, rs: seq<Result>, configured: bool, n: Notice, replies: Replies)
    requires Valid(n) && Attempts(ws, rs, configured, n, replies) && IsAttempt(w, configured, n, replies, ws[0], r) && Again(r)
    ensures Attempts([w] + ws, [r] + rs, configured, n, replies)
  {
    var (wires, results) := ([w] + ws, [r] + rs);
    forall i | 0 <= i < |results| ensures IsAttempt(wires[i], configured, n, replies, wires[i + 1], results[i]) {
      assert i > 0 ==> IsAttempt(ws[i - 1], configured, n, replies, ws[i - 1 + 1], rs[i - 1]);
    }
    forall i | 0 <= i < |results| - 1 ensures Again(results[i]) {
      assert i > 0 ==> results[i] == rs[i - 1];
    }
  }

  /** The call fails in a way that says nothing was delivered and that another attempt may succeed. */
  predicate Busy(reply: Reply) {
    && reply.Failed? && !reply.arrived
    && match reply.failure
       case ConnectTimeout => true
       case ReadTimeout => false
       case Refusal(code, _) => code == 429 || code >= 500
  }

  /** The messages of the notification as it is meant to be sent. */
  function Plan(n: Notice): seq<Part>
    requires Valid(n)
  {
    if n.photo then PhotoPlan(n) else TextPlan(n)
  }

  /** Accepted from call `c` on, an attempt delivers all of the notification, in order, and reports the last message. */
  lemma SentInFull(w: Wire, n: Notice, replies: Replies)
    requires Valid(n) && forall c: nat :: c >= w.calls ==> replies(c).Accepted?
    ensures var (w', r) := Send(w, true, n, replies);
            && w' == Wire(w.log + Plan(n), w.calls + |Plan(n)|)
            && r == Result(true, 0, 0, false, replies(w'.calls - 1).messageId)
  {
    var k := SendMeans(w, true, n, replies);
    assert n.texts[0..] == n.texts;
    if n.photo {
      assert w.log + [Photo(n.captions[0])] + Texts(n.captions[1..]) == w.log + PhotoPlan(n);
    }
  }

  /** An attempt that meets a busy server makes one call, delivers nothing, and asks for another attempt. */
  lemma BusyAttempt(w: Wire, n: Notice, replies: Replies)
    requires Valid(n) && Busy(replies(w.calls))
    ensures var (w', r) := Send(w, true, n, replies); w' == Wire(w.log, w.calls + 1) && Again(r)
  {
    var k := SendMeans(w, true, n, replies);
  }

  /**
   * Once the trouble is over the notification gets through, whole and once: if the
   * server is busy for no more calls than there are retries, all is delivered.
   */
  lemma {:induction false} GetsThrough(w: Wire, n: Notice, replies: Replies, busy: nat, retries: nat)
    requires Valid(n) && busy <= retries
    requires forall c: nat :: w.calls <= c < w.calls + busy ==> Busy(replies(c))
    requires forall c: nat :: c >= w.calls + busy ==> replies(c).Accepted?
    ensures var (w', r) := Deliver(w, true, n, replies, retries);
            r.ok && w' == Wire(w.log + Plan(n), w.calls + busy + |Plan(n)|)
    decreases busy
  {
    if busy == 0 {
      SentInFull(w, n, replies);
    } else {
      BusyAttempt(w, n, replies);
      GetsThrough(Wire(w.log, w.calls + 1), n, replies, busy - 1, retries - 1);
    }
  }
}
