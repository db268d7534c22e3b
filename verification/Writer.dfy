/**
 The batched write of rendered lines over HTTP, with a bounded number of retries per batch.

 The network is a script of replies, one for each post in order; the client records every body
 it was asked to post.  Pauses between attempts are not modelled.
 */
module Writer {
  import opened Options
  import opened Ordering
  import opened LineProtocol

  datatype Reply = Status(code: int) | TransportError

  predicate Accepted(r: Reply)
  {
    r.Status? && r.code < 300
  }

  predicate Retryable(r: Reply)
  {
    r.TransportError? || r.code in {429, 500, 502, 503, 504}
  }

  /** The category of the error raised for a reply that ends the attempts. */
  function Category(r: Reply): string
  {
    if r.Status? && r.code in {401, 403} then "influx_authentication_failed"
    else if r.Status? && r.code == 404 then "influx_database_missing"
    else "write_failed"
  }

  datatype Outcome = Written(lines: int) | Failed(category: string)

  class Client {
    const replies: nat -> Reply
    var posts: seq<string>

    constructor (replies: nat -> Reply)
      ensures this.replies == replies && posts == []
    {
      this.replies := replies;
      posts := [];
    }

    method Post(body: string) returns (reply: Reply)
      modifies this`posts
      ensures posts == old(posts) + [body]
      ensures reply == replies(old(|posts|))
    {
      reply := replies(|posts|);
      posts := posts + [body];
    }
  }

  // --- what the loops compute ---------------------------------------------------------------

  /** How often one batch is posted, and the reply that ended it if that was not acceptance. */
  datatype Settled = Settled(posts: nat, failure: Option<Reply>)

  function Settle(replies: nat -> Reply, start: nat, retriesLeft: nat): (s: Settled)
    decreases retriesLeft
  {
    var r := replies(start);
    if Accepted(r) then Settled(1, None)
    else if !Retryable(r) || retriesLeft == 0 then Settled(1, Some(r))
    else
      var rest := Settle(replies, start + 1, retriesLeft - 1);
      Settled(1 + rest.posts, rest.failure)
  }

  function Repeat(body: string, n: nat): (r: seq<string>)
    ensures |r| == n && forall i | 0 <= i < n :: r[i] == body
  {
    seq(n, i => body)
  }

  datatype Sent = Sent(posts: seq<string>, batches: nat, failure: Option<Reply>)

  /** Posts batch after batch until one is refused; `batches` counts the accepted ones. */
  function Send(replies: nat -> Reply, start: nat, bodies: seq<string>, retries: nat): Sent
    decreases bodies
  {
    if bodies == [] then Sent([], 0, None)
    else
      var s := Settle(replies, start, retries);
      var posted := Repeat(bodies[0], s.posts);
      if s.failure.Some? then Sent(posted, 0, s.failure)
      else
        var rest := Send(replies, start + s.posts, bodies[1..], retries);
        Sent(posted + rest.posts, 1 + rest.batches, rest.failure)
  }

  function Chunks(lines: seq<string>, size: nat): (r: seq<seq<string>>)
    requires size > 0
    ensures forall k | 0 <= k < |r| :: r[k] != [] && forall line | line in r[k] :: line in lines
  {
    if lines == [] then []
    else if |lines| <= size then [lines]
    else
      var rest := Chunks(lines[size..], size);
      assert forall k | 0 <= k < |rest| :: forall line | line in rest[k] :: line in lines[size..];
      [lines[..size]] + rest
  }

  function Body(lines: seq<string>): string
  {
    Join(lines, '\n')
  }

  function Bodies(lines: seq<string>, size: nat): seq<string>
    requires size > 0
  {
    Map(Body, Chunks(lines, size))
  }

  // --- the methods --------------------------------------------------------------------------

  /** Posts one body until it is accepted, refused for good, or out of retries. */
  method PostBatch(client: Client, body: string, retries: int) returns (failure: Option<Reply>)
    modifies client`posts
    ensures retries < 0 ==> failure == None && client.posts == old(client.posts)
    ensures retries >= 0 ==>
              var s := Settle(client.replies, old(|client.posts|), retries);
              failure == s.failure && client.posts == old(client.posts) + Repeat(body, s.posts)
  {
    ghost var start := |client.posts|;
    var attempt := 0;
    while attempt < retries + 1
      invariant 0 <= attempt && (if retries >= 0 then attempt <= retries else attempt == 0)
      invariant client.posts == old(client.posts) + Repeat(body, attempt)
      invariant retries >= 0 ==>
                  var all := Settle(client.replies, start, retries);
                  var rest := Settle(client.replies, start + attempt, retries - attempt);
                  all == Settled(attempt + rest.posts, rest.failure)
    {
      var reply := client.Post(body);
      assert client.posts == old(client.posts) + Repeat(body, attempt + 1);
      if Accepted(reply) {
        return None;
      }
      if !Retryable(reply) || attempt == retries {
        return Some(reply);
      }
      attempt := attempt + 1;
    }
    assert Repeat(body, 0) == [];
    return None;
  }

  /** Posts the lines in batches; the number of lines written, or the error that stopped it. */
  method WriteLines(client: Client, lines: seq<string>, batchSize: int, retries: int) returns (outcome: Outcome)
    modifies client`posts
    ensures batchSize == 0 ==> outcome == Failed("range") && client.posts == old(client.posts)
    ensures batchSize < 0 ==> outcome == Written(0) && client.posts == old(client.posts)
    ensures batchSize > 0 && retries < 0 ==> outcome == Written(|lines|) && client.posts == old(client.posts)
    ensures batchSize > 0 && retries >= 0 ==>
              var sent := Send(client.replies, old(|client.posts|), Bodies(lines, batchSize), retries);
              && client.posts == old(client.posts) + sent.posts
              && outcome == if sent.failure.Some? then Failed(Category(sent.failure.value)) else Written(|lines|)
  {
    hide Settle, Join;
    if batchSize == 0 {
      return Failed("range");
    }
    if batchSize < 0 {
      return Written(0);
    }
    var written, offset := 0, 0;
    ghost var start := |client.posts|;
    ghost var posted: seq<string> := [];
    ghost var bodies := Bodies(lines, batchSize);
    assert lines[0..] == lines;
    while offset < |lines|
      invariant 0 <= offset && written == From(lines, offset)
      invariant client.posts == old(client.posts) + posted
      invariant retries < 0 ==> posted == []
      invariant retries >= 0 ==>
                  Resumes(client.replies, start, bodies, retries, posted,
                          Bodies(lines[From(lines, offset)..], batchSize))
      decreases |lines| - offset
    {
      var end := From(lines, offset + batchSize);
      var batch := lines[offset..end];
      BodiesSplit(lines, offset, batchSize);
      ghost var rest := Bodies(lines[offset..], batchSize);
      var failure := PostBatch(client, Body(batch), retries);
      if retries >= 0 {
        ghost var s := Settle(client.replies, start + |posted|, retries);
        ResumeNext(client.replies, start, bodies, retries, posted, rest);
        posted := posted + Repeat(Body(batch), s.posts);
      }
      if failure.Some? {
        return Failed(Category(failure.value));
      }
      written := written + |batch|;
      offset := offset + batchSize;
    }
    if retries >= 0 {
      AllSent(client.replies, start, bodies, retries, posted, lines[|lines|..], batchSize);
    }
    return Written(written);
  }

  function From(lines: seq<string>, offset: nat): nat
  {
    if offset <= |lines| then offset else |lines|
  }

  /** What is posted so far, and what sending the rest will post, make up what sending all posts. */
  ghost predicate Resumes(replies: nat -> Reply, start: nat, bodies: seq<string>, retries: nat,
                          posted: seq<string>, rest: seq<string>)
  {
    var all := Send(replies, start, bodies, retries);
    var remaining := Send(replies, start + |posted|, rest, retries);
    all.posts == posted + remaining.posts && all.failure == remaining.failure
  }

  lemma ResumeNext(replies: nat -> Reply, start: nat, bodies: seq<string>, retries: nat,
                   posted: seq<string>, rest: seq<string>)
    requires rest != [] && Resumes(replies, start, bodies, retries, posted, rest)
    ensures var s := Settle(replies, start + |posted|, retries);
            var more := posted + Repeat(rest[0], s.posts);
            if s.failure.None? then Resumes(replies, start, bodies, retries, more, rest[1..])
            else Send(replies, start, bodies, retries).posts == more
                 && Send(replies, start, bodies, retries).failure == s.failure
  {
    hide Settle, Send, Repeat, Resumes;
    if Settle(replies, start + |posted|, retries).failure.None? {
      ResumeGoesOn(replies, start, bodies, retries, posted, rest);
    } else {
      ResumeStops(replies, start, bodies, retries, posted, rest);
    }
  }

  lemma ResumeGoesOn(replies: nat -> Reply, start: nat, bodies: seq<string>, retries: nat,
                     posted: seq<string>, rest: seq<string>)
    requires rest != [] && Resumes(replies, start, bodies, retries, posted, rest)
    requires Settle(replies, start + |posted|, retries).failure.None?
    ensures Resumes(replies, start, bodies, retries,
                    posted + Repeat(rest[0], Settle(replies, start + |posted|, retries).posts), rest[1..])
  {
    hide Settle, Send, Repeat;
    var s := Settle(replies, start + |posted|, retries);
    var run := Repeat(rest[0], s.posts);
    SendSplit(replies, start + |posted|, rest, retries);
    assert start + |posted| + s.posts == start + |posted + run|;
    ConcatAssoc(posted, run, Send(replies, start + |posted| + s.posts, rest[1..], retries).posts);
  }

  lemma ResumeStops(replies: nat -> Reply, start: nat, bodies: seq<string>, retries: nat,
                    posted: seq<string>, rest: seq<string>)
    requires rest != [] && Resumes(replies, start, bodies, retries, posted, rest)
    requires Settle(replies, start + |posted|, retries).failure.Some?
    ensures var s := Settle(replies, start + |posted|, retries);
            && Send(replies, start, bodies, retries).posts == posted + Repeat(rest[0], s.posts)
            && Send(replies, start, bodies, retries).failure == s.failure
  {
    hide Settle, Send, Repeat;
    SendSplit(replies, start + |posted|, rest, retries);
  }

  lemma SendSplit(replies: nat -> Reply, start: nat, bodies: seq<string>, retries: nat)
    requires bodies != []
    ensures var s := Settle(replies, start, retries);
            var all := Send(replies, start, bodies, retries);
            if s.failure.Some? then all.posts == Repeat(bodies[0], s.posts) && all.failure == s.failure
            else
              var rest := Send(replies, start + s.posts, bodies[1..], retries);
              all.posts == Repeat(bodies[0], s.posts) + rest.posts && all.failure == rest.failure
  {
  }

  lemma AllSent(replies: nat -> Reply, start: nat, bodies: seq<string>, retries: nat, posted: seq<string>,
                none: seq<string>, size: nat)
    requires none == [] && size > 0 && Resumes(replies, start, bodies, retries, posted, Bodies(none, size))
    ensures Send(replies, start, bodies, retries).posts == posted
    ensures Send(replies, start, bodies, retries).failure == None
  {
    assert Bodies(none, size) == [];
  }

  lemma BodiesSplit(lines: seq<string>, offset: nat, size: nat)
    requires offset < |lines| && size > 0
    ensures var end := From(lines, offset + size);
            Bodies(lines[offset..], size) == [Body(lines[offset..end])] + Bodies(lines[end..], size)
  {
    hide Body;
    var rest, end := lines[offset..], From(lines, offset + size);
    if |rest| > size {
      assert rest[..size] == lines[offset..end] && rest[size..] == lines[end..];
    } else {
      assert rest == lines[offset..end] && lines[end..] == [];
      assert Chunks(rest, size) == [rest] && Chunks(lines[end..], size) == [];
    }
  }

  // --- what sending guarantees --------------------------------------------------------------

  /** One batch is posted at most once more than it has retries, and only the last post can be accepted. */
  lemma {:induction false} SettleStops(replies: nat -> Reply, start: nat, retries: nat)
    ensures var s := Settle(replies, start, retries);
      && 1 <= s.posts <= retries + 1
      && (s.failure.None? <==> Accepted(replies(start + s.posts - 1)))
      && (s.failure.Some? ==> s.failure.value == replies(start + s.posts - 1)
                              && (!Retryable(s.failure.value) || s.posts == retries + 1))
      && forall i: nat | start <= i < start + s.posts - 1 :: Retryable(replies(i)) && !Accepted(replies(i))
    decreases retries
  {
    if !Accepted(replies(start)) && Retryable(replies(start)) && retries > 0 {
      SettleStops(replies, start + 1, retries - 1);
    }
  }

  /** The server is out of reach, overloaded or failing. */
  predicate Passing(r: Reply)
  {
    match r
    case TransportError => true
    case Status(code) => code == 429 || code == 500 || code == 502 || code == 503 || code == 504
  }

  /**
   A batch is posted again exactly while the server is out of reach or failing and a retry is left: it is
   written if the last reply has a status below 300, and otherwise that reply is the error, in its category.
   */
  lemma {:induction false} BatchEnds(replies: nat -> Reply, start: nat, retries: nat)
    ensures var s := Settle(replies, start, retries);
            var last := replies(start + s.posts - 1);
      && (forall i: nat | start <= i < start + s.posts - 1 :: Passing(replies(i)))
      && (s.failure.None? <==> last.Status? && last.code < 300)
      && (s.failure.Some? ==> s.failure.value == last && (Passing(last) ==> s.posts == retries + 1))
      && (Category(last) == "influx_authentication_failed" <==> last == Status(401) || last == Status(403))
      && (Category(last) == "influx_database_missing" <==> last == Status(404))
      && (Category(last) == "write_failed" <==> last != Status(401) && last != Status(403) && last != Status(404))
    decreases retries
  {
    hide Category;
    if Settle(replies, start, retries).posts > 1 {
      BatchEnds(replies, start + 1, retries - 1);
    } else {
      CategoryIs(replies(start));
    }
  }

  lemma CategoryIs(r: Reply)
    ensures Category(r) == "influx_authentication_failed" <==> r == Status(401) || r == Status(403)
    ensures Category(r) == "influx_database_missing" <==> r == Status(404)
    ensures Category(r) == "write_failed" <==> r != Status(401) && r != Status(403) && r != Status(404)
  {
    assert |"influx_authentication_failed"| != |"influx_database_missing"|;
    assert |"write_failed"| != |"influx_authentication_failed"| && |"write_failed"| != |"influx_database_missing"|;
  }

  ghost predicate Full(batches: seq<seq<string>>, size: nat)
  {
    && (forall k | 0 <= k < |batches| :: 1 <= |batches[k]| <= size)
    && (forall k | 0 <= k < |batches| - 1 :: |batches[k]| == size)
  }

  /** Every batch is full but the last, which is not empty. */
  lemma {:induction false} BatchesAreFull(lines: seq<string>, size: nat)
    requires size > 0
    ensures Full(Chunks(lines, size), size)
    decreases |lines|
  {
    if |lines| > size {
      BatchesAreFull(lines[size..], size);
      FullGrows(lines[..size], Chunks(lines[size..], size), size);
    }
  }

  lemma FullGrows(first: seq<string>, rest: seq<seq<string>>, size: nat)
    requires Full(rest, size) && 1 <= |first| == size
    ensures Full([first] + rest, size)
  {
  }

  /** The posts whose replies were acceptances, in order. */
  function AcceptedPosts(replies: nat -> Reply, start: nat, posts: seq<string>): seq<string>
    decreases posts
  {
    if posts == [] then []
    else (if Accepted(replies(start)) then [posts[0]] else []) + AcceptedPosts(replies, start + 1, posts[1..])
  }

  /** The posts are runs of at most `limit` copies of each body, in order. */
  ghost predicate InRuns(posts: seq<string>, bodies: seq<string>, limit: nat)
    decreases |bodies|
  {
    if bodies == [] then posts == []
    else exists n: nat | 1 <= n <= limit && n <= |posts| ::
           posts[..n] == Repeat(bodies[0], n) && InRuns(posts[n..], bodies[1..], limit)
  }

  lemma {:induction false} AcceptedRun(replies: nat -> Reply, start: nat, body: string, n: nat, rest: seq<string>)
    requires n > 0 && forall i: nat | start <= i < start + n - 1 :: !Accepted(replies(i))
    ensures AcceptedPosts(replies, start, Repeat(body, n) + rest) ==
            (if Accepted(replies(start + n - 1)) then [body] else []) + AcceptedPosts(replies, start + n, rest)
    decreases n
  {
    var posts := Repeat(body, n) + rest;
    if n == 1 {
      assert posts[0] == body && posts[1..] == rest;
    } else {
      AcceptedRun(replies, start + 1, body, n - 1, rest);
      assert posts[0] == body && posts[1..] == Repeat(body, n - 1) + rest;
    }
  }

  lemma RunsOne(posts: seq<string>, body: string, n: nat, limit: nat)
    requires posts == Repeat(body, n) && 1 <= n <= limit
    ensures InRuns(posts, [body], limit)
  {
    assert posts[..n] == posts && posts[n..] == [] && [body][1..] == [];
  }

  lemma RunsMore(body: string, n: nat, rest: seq<string>, bodies: seq<string>, limit: nat)
    requires 1 <= n <= limit && InRuns(rest, bodies, limit)
    ensures InRuns(Repeat(body, n) + rest, [body] + bodies, limit)
  {
    hide Repeat;
    var posts := Repeat(body, n) + rest;
    assert posts[..n] == Repeat(body, n) && posts[n..] == rest && ([body] + bodies)[1..] == bodies;
  }

  /** No body is posted more often than the retries allow, and none after the one that failed. */
  lemma {:induction false} SendInRuns(replies: nat -> Reply, start: nat, bodies: seq<string>, retries: nat)
    ensures var sent := Send(replies, start, bodies, retries);
      && sent.batches <= |bodies| && (sent.failure.None? <==> sent.batches == |bodies|)
      && InRuns(sent.posts, if sent.failure.None? then bodies else bodies[..sent.batches + 1], retries + 1)
    decreases bodies
  {
    hide Settle, Repeat, InRuns;
    if bodies == [] {
      NoRuns(retries + 1);
    } else {
      var s := Settle(replies, start, retries);
      var sent := Send(replies, start, bodies, retries);
      SettleStops(replies, start, retries);
      if s.failure.Some? {
        assert bodies[..1] == [bodies[0]];
        RunsOne(sent.posts, bodies[0], s.posts, retries + 1);
      } else {
        SendInRuns(replies, start + s.posts, bodies[1..], retries);
        var rest := Send(replies, start + s.posts, bodies[1..], retries);
        var reached := if rest.failure.None? then bodies[1..] else bodies[1..][..rest.batches + 1];
        RunsMore(bodies[0], s.posts, rest.posts, reached, retries + 1);
        assert [bodies[0]] + reached == if sent.failure.None? then bodies else bodies[..sent.batches + 1];
      }
    }
  }

  lemma NoRuns(limit: nat)
    ensures InRuns([], [], limit)
  {
  }

  /** The accepted posts are the first bodies in order: all when nothing failed, else a proper prefix. */
  lemma {:induction false} SendAccounts(replies: nat -> Reply, start: nat, bodies: seq<string>, retries: nat)
    ensures var sent := Send(replies, start, bodies, retries);
      && sent.batches <= |bodies| && (sent.failure.None? <==> sent.batches == |bodies|)
      && AcceptedPosts(replies, start, sent.posts) == bodies[..sent.batches]
    decreases bodies
  {
    hide Settle, Accepted, Retryable, AcceptedPosts;
    if bodies == [] {
      NothingAccepted(replies, start);
    } else {
      var s := Settle(replies, start, retries);
      var sent := Send(replies, start, bodies, retries);
      var run := Repeat(bodies[0], s.posts);
      SettleStops(replies, start, retries);
      if s.failure.Some? {
        AcceptedRun(replies, start, bodies[0], s.posts, []);
        NothingAccepted(replies, start + s.posts);
        assert run + [] == run;
      } else {
        SendAccounts(replies, start + s.posts, bodies[1..], retries);
        var rest := Send(replies, start + s.posts, bodies[1..], retries);
        AcceptedRun(replies, start, bodies[0], s.posts, rest.posts);
        assert bodies[..sent.batches] == [bodies[0]] + bodies[1..][..rest.batches];
      }
    }
  }

  lemma NothingAccepted(replies: nat -> Reply, start: nat)
    ensures AcceptedPosts(replies, start, []) == []
  {
  }

  // --- from the bodies back to the lines ----------------------------------------------------

  /** Python's `body.split("\n")`. */
  function Split(body: string): (r: seq<string>)
    ensures r != []
  {
    if body == "" then [""]
    else
      var rest := Split(body[1..]);
      if body[0] == '\n' then [""] + rest else [[body[0]] + rest[0]] + rest[1..]
  }

  lemma {:induction false} SplitPrefix(line: string, rest: string)
    requires '\n' !in line
    ensures Split(line + "\n" + rest) == [line] + Split(rest)
    ensures Split(line) == [line]
  {
    var whole := line + "\n" + rest;
    if line == "" {
      assert whole[0] == '\n' && whole[1..] == rest;
    } else {
      SplitPrefix(line[1..], rest);
      assert whole[1..] == line[1..] + "\n" + rest && line == [line[0]] + line[1..];
    }
  }

  lemma {:induction false} SplitJoin(lines: seq<string>)
    requires lines != [] && forall line | line in lines :: '\n' !in line
    ensures Split(Body(lines)) == lines
  {
    hide Split;
    assert lines[0] in lines;
    if |lines| == 1 {
      SplitPrefix(lines[0], "");
    } else {
      assert lines == [lines[0]] + lines[1..];
      assert forall line | line in lines[1..] :: line in lines;
      SplitJoin(lines[1..]);
      SplitPrefix(lines[0], Body(lines[1..]));
      assert Body(lines) == lines[0] + "\n" + Body(lines[1..]);
    }
  }

  function SplitAll(bodies: seq<string>): seq<string>
  {
    if bodies == [] then [] else Split(bodies[0]) + SplitAll(bodies[1..])
  }

  lemma SplitFirst(body: string, bodies: seq<string>)
    ensures SplitAll([body] + bodies) == Split(body) + SplitAll(bodies)
  {
    hide Split;
    assert ([body] + bodies)[1..] == bodies;
  }

  /** Splitting the batch bodies back gives every line, in order, exactly once. */
  lemma {:induction false} BodiesHoldLines(lines: seq<string>, size: nat)
    requires size > 0 && forall line | line in lines :: '\n' !in line
    ensures SplitAll(Bodies(lines, size)) == lines
  {
    hide Split, Body;
    if lines != [] {
      hide SplitAll, Bodies;
      BodiesSplit(lines, 0, size);
      var end := From(lines, size);
      assert lines[0..] == lines;
      assert forall line | line in lines[0..end] :: line in lines;
      assert forall line | line in lines[end..] :: line in lines;
      SplitJoin(lines[0..end]);
      BodiesHoldLines(lines[end..], size);
      SplitFirst(Body(lines[0..end]), Bodies(lines[end..], size));
      assert lines == lines[0..end] + lines[end..];
    }
  }

  // --- the whole write ----------------------------------------------------------------------

  /** The lines of the points that have fields, and the category of the first refusal if there is one. */
  function RenderAll(points: seq<Point>): (r: (seq<string>, Option<string>))
    ensures forall line | line in r.0 :: exists p | p in points :: Render(p) == Rendered(line)
    ensures r.1.Some? <==> exists p | p in points :: Render(p).Rejected?
  {
    if points == [] then ([], None)
    else
      assert points == points[..|points| - 1] + [points[|points| - 1]];
      var (lines, refused) := RenderAll(points[..|points| - 1]);
      if refused.Some? then (lines, refused)
      else
        match Render(points[|points| - 1])
        case Rendered(text) => (lines + [text], None)
        case NoFields => (lines, None)
        case Rejected(category, _) => (lines, Some(category))
  }

  /** Renders all points first, so a refused point means that nothing was posted; then posts them. */
  method Write(client: Client, points: seq<Point>, batchSize: int, retries: int) returns (outcome: Outcome)
    modifies client`posts
    ensures RenderAll(points).1.Some? ==>
              outcome == Failed(RenderAll(points).1.value) && client.posts == old(client.posts)
    ensures RenderAll(points).1.None? && batchSize > 0 && retries >= 0 ==>
              var lines := RenderAll(points).0;
              var sent := Send(client.replies, old(|client.posts|), Bodies(lines, batchSize), retries);
              && client.posts == old(client.posts) + sent.posts
              && outcome == if sent.failure.Some? then Failed(Category(sent.failure.value)) else Written(|lines|)
  {
    hide Render, Send;
    var lines: seq<string> := [];
    for i := 0 to |points|
      invariant RenderAll(points[..i]) == (lines, None) && client.posts == old(client.posts)
    {
      var line := PrintLine(points[i]);
      assert points[..i + 1][..i] == points[..i];
      match line {
        case Rendered(text) => lines := lines + [text];
        case NoFields =>
        case Rejected(category, _) =>
          RefusalStays(points, i + 1);
          return Failed(category);
      }
    }
    assert points[..|points|] == points;
    outcome := WriteLines(client, lines, batchSize, retries);
  }

  lemma {:induction false} RefusalStays(points: seq<Point>, n: nat)
    requires n <= |points| && RenderAll(points[..n]).1.Some?
    ensures RenderAll(points) == RenderAll(points[..n])
    decreases |points|
  {
    hide Render;
    if n < |points| {
      var init := points[..|points| - 1];
      assert init[..n] == points[..n];
      RefusalStays(init, n);
    } else {
      assert points[..n] == points;
    }
  }

  /** What was accepted, read back line by line and reader by reader, is what the points rendered to. */
  lemma WrittenReadsBack(replies: nat -> Reply, start: nat, points: seq<Point>, batchSize: nat, retries: nat)
    requires batchSize > 0 && RenderAll(points).1.None?
    requires forall p | p in points && Render(p).Rendered? :: !NamesBreak(p)
    ensures var lines := RenderAll(points).0;
            var sent := Send(replies, start, Bodies(lines, batchSize), retries);
            && (sent.failure.None? ==> SplitAll(AcceptedPosts(replies, start, sent.posts)) == lines)
            && forall line | line in lines :: ReadLine(line).Some?
  {
    hide Render, Send, Split, ReadLine, AcceptedPosts, NamesBreak;
    var lines := RenderAll(points).0;
    forall line | line in lines ensures '\n' !in line && ReadLine(line).Some? {
      var p :| p in points && Render(p) == Rendered(line);
      RenderedIsOneLine(p);
      RenderReadsBack(p);
    }
    var bodies := Bodies(lines, batchSize);
    SendAccounts(replies, start, bodies, retries);
    BodiesHoldLines(lines, batchSize);
    assert bodies[..|bodies|] == bodies;
  }
}
