/** The durable tier (internal/redis/redis.go): a Redis client whose commands
    are retried by withRetry, and a SCAN loop that follows cursors. The real
    server and the network are an oracle, the class `Server`: a map from key
    to stored bytes, a log of every attempt the client made, a fixed schedule of
    what the network does with the i-th attempt, and a fixed table of SCAN
    pages. */
module Redis {
  import opened Base
  import opened Decimal

  /** withRetry calls its function at most this many times. */
  const MaxAttempts: nat := 3

  /** What the network does with one attempt: deliver it and its reply, refuse
      it before the server sees it, or deliver it and lose the reply (a
      timeout after the server has executed the command). */
  datatype Link = Up | Refused(reason: string) | ReplyLost(reason: string)

  datatype Request =
    | SetReq(key: string, value: seq<byte>)
    | GetReq(key: string)
    | DelReq(key: string)
    | IncrByReq(key: string, delta: int64)
    | ScanReq(cursor: uint64, pattern: string)

  /** One SCAN reply: a batch of keys and the cursor to continue from (0 when
      the iteration is complete). */
  datatype Page = Page(batch: seq<string>, next: uint64)

  datatype Reply = Done | Bulk(bytes: seq<byte>) | Count(removed: nat) | Number(n: int64) | Scanned(page: Page)

  /** The reply to one attempt and the data afterwards. */
  datatype Step = Step(reply: Result<Reply>, data: map<string, seq<byte>>)

  /** The network's schedule of faults: entry i is the outcome of attempt
      number i; every attempt after the schedule gets through. */
  type Links = seq<Link>

  function LinkAt(links: Links, i: nat): (l: Link)
    ensures i >= |links| ==> l == Up
    ensures i < |links| ==> l == links[i]
  {
    if i < |links| then links[i] else Up
  }

  /** The page SCAN returns for a cursor and a pattern. */
  type Pages = (uint64, string) -> Page

  /** The kind of reply each command has. */
  predicate Answers(req: Request, reply: Reply) {
    match req
    case SetReq(_, _) => reply == Done
    case GetReq(_) => reply.Bulk?
    case DelReq(_) => reply.Count?
    case IncrByReq(_, _) => reply.Number?
    case ScanReq(_, _) => reply.Scanned?
  }

  /** The integer INCRBY starts from: 0 for a missing key, otherwise the
      stored text read as a decimal int64, and None when it is not one. */
  function Counter(data: map<string, seq<byte>>, key: string): (r: Option<int64>)
    ensures key !in data ==> r == Some(0)
    ensures r.Some? ==> key !in data || ParseInt(data[key]) == Some(r.value as int)
    ensures r.None? <==> key in data && (ParseInt(data[key]).None? || !InInt64(ParseInt(data[key]).value))
  {
    if key !in data then Some(0)
    else match ParseInt(data[key])
      case None => None
      case Some(n) => if InInt64(n) then Some(n) else None
  }

  /** INCRBY: add to the stored counter, failing on text that is not an
      int64 and on a sum that leaves the int64 range. */
  function IncrStep(data: map<string, seq<byte>>, k: string, d: int64): (s: Step)
    ensures s.reply.Success? ==> s.reply.value.Number?
    ensures s.reply.Failure? ==> s.data == data
  {
    match Counter(data, k)
    case None => Step(Failure(NotInteger), data)
    case Some(n) =>
      if InInt64(n + d) then Step(Success(Number(n + d)), data[k := FormatInt(n + d)])
      else Step(Failure(Overflow), data)
  }

  /** A command executed by the server. */
  function Execute(data: map<string, seq<byte>>, pages: Pages, req: Request): (s: Step)
    ensures s.reply.Success? ==> Answers(req, s.reply.value)
    ensures s.reply.Failure? ==> s.data == data
    ensures !req.SetReq? && !req.DelReq? && !req.IncrByReq? ==> s.data == data
  {
    match req
    case SetReq(k, v) => Step(Success(Done), data[k := v])
    case GetReq(k) => if k in data then Step(Success(Bulk(data[k])), data) else Step(Failure(NotFound), data)
    case DelReq(k) => Step(Success(Count(if k in data then 1 else 0)), data - {k})
    case IncrByReq(k, d) =>
      IncrStep(data, k, d)
    case ScanReq(c, p) => Step(Success(Scanned(pages(c, p))), data)
  }

  /** What the server does with a delivered command. */
  type Exec = (map<string, seq<byte>>, Request) -> Step

  /** `exec` is the command semantics above, over the SCAN page table `pages`. */
  ghost predicate IsRedis(exec: Exec, pages: Pages) {
    forall d, req {:trigger Execute(d, pages, req)} :: exec(d, req) == Execute(d, pages, req)
  }

  /** One attempt over the network: the server executes the request unless
      the attempt is refused, and its reply arrives only over a healthy link. */
  function Serve(exec: Exec, data: map<string, seq<byte>>, req: Request, link: Link): (s: Step)
    ensures link.Refused? ==> s.data == data
    ensures !link.Refused? ==> s.data == exec(data, req).data
    ensures link.Up? ==> s.reply == exec(data, req).reply
    ensures !link.Up? ==> s.reply == Failure(Unavailable(link.reason))
  {
    match link
    case Up => exec(data, req)
    case Refused(why) => Step(Failure(Unavailable(why)), data)
    case ReplyLost(why) => Step(Failure(Unavailable(why)), exec(data, req).data)
  }

  /** The outcome of a retried command: what withRetry returns, the data
      afterwards and how many attempts were made. */
  datatype Run = Run(result: Result<Reply>, data: map<string, seq<byte>>, calls: nat)

  /** withRetry's loop with `left` attempts to go, the next one being attempt
      `n`; `last` is the error of the attempt before (Go's `err`). */
  function Retry(exec: Exec, links: Links, data: map<string, seq<byte>>, n: nat, req: Request, left: nat, last: Option<Error>): (r: Run)
    requires left >= 1 || last.Some?
    ensures r.calls <= left
    ensures left >= 1 ==> r.calls >= 1
    ensures r.calls < left ==> r.result.Success?
    decreases left
  {
    if left == 0 then Run(Failure(last.value), data, 0)
    else
      var s := Serve(exec, data, req, LinkAt(links, n));
      if s.reply.Success? then Run(s.reply, s.data, 1)
      else
        var rest := Retry(exec, links, s.data, n + 1, req, left - 1, Some(s.reply.error));
        Run(rest.result, rest.data, rest.calls + 1)
  }

  /** The whole of withRetry issuing `req` from attempt `n` on. */
  function WithRetrySpec(exec: Exec, links: Links, data: map<string, seq<byte>>, n: nat, req: Request): (r: Run)
    ensures 1 <= r.calls <= MaxAttempts
    ensures r.result.Failure? ==> r.calls == MaxAttempts
  {
    Retry(exec, links, data, n, req, MaxAttempts, None)
  }

  /** withRetry's failure is the error of the third attempt, and the data is
      what that attempt left. */
  lemma WithRetryLastError(exec: Exec, links: Links, data: map<string, seq<byte>>, n: nat, req: Request)
    ensures var r := WithRetrySpec(exec, links, data, n, req);
      r.result.Failure? ==>
        exists d {:trigger Serve(exec, d, req, LinkAt(links, n + 2))} ::
          Serve(exec, d, req, LinkAt(links, n + 2)) == Step(r.result, r.data)
  {
    RetryLastError(exec, links, data, n, req, MaxAttempts, None);
  }

  /** A retried command that fails reports the error of its last attempt, the
      one numbered n + left - 1, and leaves the data that attempt left, from
      whatever data it started on. */
  lemma {:induction false} RetryLastError(exec: Exec, links: Links, data: map<string, seq<byte>>, n: nat, req: Request,
                                          left: nat, last: Option<Error>)
    requires left >= 1
    ensures var r := Retry(exec, links, data, n, req, left, last);
      r.result.Failure? ==>
        exists d {:trigger Serve(exec, d, req, LinkAt(links, n + left - 1))} ::
          Serve(exec, d, req, LinkAt(links, n + left - 1)) == Step(r.result, r.data)
    decreases left
  {
    var s := Serve(exec, data, req, LinkAt(links, n));
    var r := Retry(exec, links, data, n, req, left, last);
    if s.reply.Failure? {
      if left == 1 {
        assert Serve(exec, data, req, LinkAt(links, n + left - 1)) == Step(r.result, r.data);
      } else {
        var rest := Retry(exec, links, s.data, n + 1, req, left - 1, Some(s.reply.error));
        RetryLastError(exec, links, s.data, n + 1, req, left - 1, Some(s.reply.error));
        if rest.result.Failure? {
          var d :| Serve(exec, d, req, LinkAt(links, n + 1 + (left - 1) - 1)) == Step(rest.result, rest.data);
          assert Serve(exec, d, req, LinkAt(links, n + left - 1)) == Step(r.result, r.data);
        }
      }
    }
  }

  function Repeat(req: Request, n: nat): (r: seq<Request>)
    ensures |r| == n && forall i :: 0 <= i < n ==> r[i] == req
  {
    seq(n, _ => req)
  }

  /** The error a retried command reports (Go's `.Err()`), None for nil. */
  function ErrorOf(r: Result<Reply>): (e: Option<Error>)
    ensures e.None? <==> r.Success?
    ensures e.Some? ==> r == Failure(e.value)
  {
    if r.Success? then None else Some(r.error)
  }

  /** The remote store and the network in front of it. */
  class Server {
    var data: map<string, seq<byte>>
    var log: seq<Request>
    const links: Links
    const pages: Pages
    const exec: Exec
    /** Every SCAN iteration of this server ends within `depth` pages. */
    const depth: nat

    ghost predicate Redis() {
      IsRedis(exec, pages)
    }

    constructor (data: map<string, seq<byte>>, links: Links, pages: Pages, depth: nat)
      ensures Redis()
      ensures this.data == data && log == []
      ensures this.links == links && this.pages == pages && this.depth == depth
    {
      this.data := data;
      log := [];
      this.links := links;
      this.pages := pages;
      this.exec := (d: map<string, seq<byte>>, req: Request) => Execute(d, pages, req);
      this.depth := depth;
    }

    /** One call of a go-redis command: it is logged and served according to
        the link of its attempt number. */
    method Attempt(req: Request) returns (r: Result<Reply>)
      modifies this
      ensures Step(r, data) == Serve(exec, old(data), req, LinkAt(links, |old(log)|))
      ensures log == old(log) + [req]
    {
      var s := Serve(exec, data, req, LinkAt(links, |log|));
      log := log + [req];
      data := s.data;
      r := s.reply;
    }
  }

  /** Proof helper: one more repetition at the end. */
  lemma RepeatSnoc(req: Request, n: nat)
    ensures Repeat(req, n) + [req] == Repeat(req, n + 1)
  {
  }

  /** Retry after the attempt that follows `log`, whose reply is `res` and
      which leaves `after`. */
  lemma RetryAfter(exec: Exec, links: Links, data: map<string, seq<byte>>, log: seq<Request>, req: Request, left: nat,
                   last: Option<Error>, res: Result<Reply>, after: map<string, seq<byte>>)
    requires left >= 1 && Step(res, after) == Serve(exec, data, req, LinkAt(links, |log|))
    ensures res.Success? ==> Retry(exec, links, data, |log|, req, left, last) == Run(res, after, 1)
    ensures res.Failure? ==>
      var rest := Retry(exec, links, after, |log + [req]|, req, left - 1, Some(res.error));
      Retry(exec, links, data, |log|, req, left, last) == Run(rest.result, rest.data, rest.calls + 1)
  {
  }

  /** withRetry(fn) where fn issues `req`: up to three attempts, returning on
      the first success, otherwise the error of the last attempt. */
  method WithRetry(server: Server, req: Request) returns (r: Result<Reply>)
    modifies server
    ensures var run := WithRetrySpec(server.exec, server.links, old(server.data), |old(server.log)|, req);
      && r == run.result
      && server.data == run.data
      && server.log == old(server.log) + Repeat(req, run.calls)
  {
    ghost var whole := WithRetrySpec(server.exec, server.links, server.data, |server.log|, req);
    ghost var rest := whole;
    ghost var left: nat := MaxAttempts;
    var err: Option<Error> := None;
    var i := 0;
    while i < MaxAttempts
      invariant 0 <= i <= MaxAttempts && left == MaxAttempts - i
      invariant i > 0 ==> err.Some?
      invariant server.log == old(server.log) + Repeat(req, i)
      invariant rest == Retry(server.exec, server.links, server.data, |server.log|, req, left, err)
      invariant whole.result == rest.result && whole.data == rest.data && whole.calls == rest.calls + i
    {
      ghost var before := server.data;
      ghost var log := server.log;
      var res := server.Attempt(req);
      RepeatSnoc(req, i);
      RetryAfter(server.exec, server.links, before, log, req, left, err, res, server.data);
      if res.Success? {
        return res;
      }
      err := Some(res.error);
      rest := Retry(server.exec, server.links, server.data, |server.log|, req, left - 1, err);
      i := i + 1;
      left := left - 1;
    }
    return Failure(err.value);
  }

  /** Against a Redis server every successful reply of a retried command has
      the shape its command calls for. */
  lemma {:induction false} RetryAnswers(exec: Exec, pages: Pages, links: Links, data: map<string, seq<byte>>, n: nat, req: Request, left: nat, last: Option<Error>)
    requires IsRedis(exec, pages) && (left >= 1 || last.Some?)
    ensures var r := Retry(exec, links, data, n, req, left, last);
      r.result.Success? ==> Answers(req, r.result.value)
    decreases left
  {
    if left >= 1 {
      var s := Serve(exec, data, req, LinkAt(links, n));
      if s.reply.Failure? {
        RetryAnswers(exec, pages, links, s.data, n + 1, req, left - 1, Some(s.reply.error));
      } else {
        assert s == Execute(data, pages, req);
      }
    }
  }

  /** When every attempt is refused, withRetry makes all of them and returns
      the error of the last one; the data stays as it was. */
  lemma {:induction false} RetryAllRefused(exec: Exec, links: Links, data: map<string, seq<byte>>, n: nat, req: Request, left: nat, last: Option<Error>)
    requires left >= 1
    requires forall i :: n <= i < n + left ==> LinkAt(links, i).Refused?
    ensures Retry(exec, links, data, n, req, left, last) == Run(Failure(Unavailable(LinkAt(links, n + left - 1).reason)), data, left)
    decreases left
  {
    if left > 1 {
      RetryAllRefused(exec, links, data, n + 1, req, left - 1, Some(Unavailable(LinkAt(links, n).reason)));
    }
  }

  /** Over a network that delivers every attempt, a command whose failure
      changes nothing has the same outcome as one execution: a success is
      returned at once, a failure is repeated until the attempts run out. */
  lemma {:induction false} RetryHealthy(exec: Exec, links: Links, data: map<string, seq<byte>>, n: nat, req: Request, left: nat, last: Option<Error>)
    requires left >= 1
    requires forall i :: n <= i < n + left ==> LinkAt(links, i) == Up
    requires exec(data, req).reply.Failure? ==> exec(data, req).data == data
    ensures var s := exec(data, req);
      var r := Retry(exec, links, data, n, req, left, last);
      && r.result == s.reply
      && r.data == s.data
      && r.calls == if s.reply.Success? then 1 else left
    decreases left
  {
    var s := exec(data, req);
    if s.reply.Failure? && left > 1 {
      RetryHealthy(exec, links, data, n + 1, req, left - 1, Some(s.reply.error));
    }
  }

  /** A retried GET changes no data; a successful one returns the stored
      bytes, a failed one reports a miss or an unavailable server. A lost
      reply does not change that. */
  lemma {:induction false} RetryGet(exec: Exec, pages: Pages, links: Links, data: map<string, seq<byte>>, n: nat, key: string, left: nat, last: Option<Error>)
    requires IsRedis(exec, pages) && (left >= 1 || last.Some?)
    requires last.Some? ==> last.value == NotFound || last.value.Unavailable?
    ensures var r := Retry(exec, links, data, n, GetReq(key), left, last);
      && r.data == data
      && (r.result.Success? ==> key in data && r.result == Success(Bulk(data[key])))
      && (r.result.Failure? ==> r.result.error == NotFound || r.result.error.Unavailable?)
    decreases left
  {
    if left >= 1 {
      var s := Serve(exec, data, GetReq(key), LinkAt(links, n));
      assert exec(data, GetReq(key)) == Execute(data, pages, GetReq(key));
      if s.reply.Failure? {
        RetryGet(exec, pages, links, s.data, n + 1, key, left - 1, Some(s.reply.error));
      }
    }
  }

  /** A GET of a missing key over a healthy network: go-redis reports the miss
      as an error, so withRetry asks three times before returning it. */
  lemma GetMissRetried(exec: Exec, pages: Pages, links: Links, data: map<string, seq<byte>>, n: nat, key: string)
    requires IsRedis(exec, pages) && key !in data
    requires forall i :: n <= i < n + MaxAttempts ==> LinkAt(links, i) == Up
    ensures WithRetrySpec(exec, links, data, n, GetReq(key)) == Run(Failure(NotFound), data, MaxAttempts)
  {
    assert exec(data, GetReq(key)) == Execute(data, pages, GetReq(key));
    RetryHealthy(exec, links, data, n, GetReq(key), MaxAttempts, None);
  }

  /** A delivered INCRBY whose sum stays within range answers the sum and
      stores it as text that reads back as the new counter. */
  lemma IncrByAdds(exec: Exec, pages: Pages, data: map<string, seq<byte>>, key: string, delta: int64, c: int64, sum: int64)
    requires IsRedis(exec, pages)
    requires Counter(data, key) == Some(c) && sum == c + delta
    ensures exec(data, IncrByReq(key, delta)) == Step(Success(Number(sum)), data[key := FormatInt(sum)])
    ensures Counter(data[key := FormatInt(sum)], key) == Some(sum)
  {
    assert exec(data, IncrByReq(key, delta)) == Execute(data, pages, IncrByReq(key, delta));
    ParseFormat(FormatInt(sum), sum);
  }

  /** A command whose first reply is lost after the server executed it, and
      whose second attempt gets through and succeeds, is executed twice. */
  lemma RetryReplyLost(exec: Exec, links: Links, data: map<string, seq<byte>>, n: nat, req: Request)
    requires LinkAt(links, n).ReplyLost? && LinkAt(links, n + 1) == Up
    requires exec(exec(data, req).data, req).reply.Success?
    ensures var second := exec(exec(data, req).data, req);
      WithRetrySpec(exec, links, data, n, req) == Run(second.reply, second.data, 2)
  {
  }

  /** Two deliveries of the same INCRBY add its increment twice. */
  lemma IncrByTwice(exec: Exec, pages: Pages, data: map<string, seq<byte>>, key: string, delta: int64, c: int64)
    requires IsRedis(exec, pages)
    requires Counter(data, key) == Some(c) && InInt64(c + 2 * delta)
    ensures var once := exec(data, IncrByReq(key, delta));
      exec(once.data, IncrByReq(key, delta)) == Step(Success(Number(c + 2 * delta)), data[key := FormatInt(c + 2 * delta)])
  {
    var once: int64 := c + delta;
    IncrByAdds(exec, pages, data, key, delta, c, once);
    IncrByAdds(exec, pages, data[key := FormatInt(once)], key, delta, once, c + 2 * delta);
    Overwrite(data, key, FormatInt(once), FormatInt(c + 2 * delta));
  }

  /** Proof helper: a second update of a key overwrites the first. */
  lemma Overwrite(data: map<string, seq<byte>>, key: string, a: seq<byte>, b: seq<byte>)
    ensures data[key := a][key := b] == data[key := b]
  {
  }

  /** INCRBY is retried although it is not idempotent: when the reply to the
      first attempt is lost after the server applied it, the second attempt
      applies the increment again and its result is returned. */
  lemma IncrByReplyLost(exec: Exec, pages: Pages, links: Links, data: map<string, seq<byte>>, n: nat, key: string, delta: int64, c: int64)
    requires IsRedis(exec, pages)
    requires LinkAt(links, n).ReplyLost? && LinkAt(links, n + 1) == Up
    requires Counter(data, key) == Some(c) && InInt64(c + 2 * delta)
    ensures WithRetrySpec(exec, links, data, n, IncrByReq(key, delta))
         == Run(Success(Number(c + 2 * delta)), data[key := FormatInt(c + 2 * delta)], 2)
  {
    IncrByTwice(exec, pages, data, key, delta, c);
    RetryReplyLost(exec, links, data, n, IncrByReq(key, delta));
  }

  /** The outcome of a SCAN iteration: the keys or the error, and the
      requests sent. */
  datatype ScanRun = ScanRun(result: Result<seq<string>>, sent: seq<Request>)

  /** The cursor chain from `cursor` reaches 0 within `fuel` pages. */
  predicate Ends(pages: Pages, pattern: string, cursor: uint64, fuel: nat)
    decreases fuel
  {
    fuel >= 1 && (pages(cursor, pattern).next == 0 || Ends(pages, pattern, pages(cursor, pattern).next, fuel - 1))
  }

  /** ScanKeys from `cursor`, having accumulated `acc`, the next SCAN being
      attempt `n`. SCAN pages are not retried. */
  function ScanFrom(pages: Pages, links: Links, n: nat, pattern: string, cursor: uint64, acc: seq<string>, fuel: nat): (r: ScanRun)
    requires Ends(pages, pattern, cursor, fuel)
    ensures |r.sent| >= 1 && r.sent[0] == ScanReq(cursor, pattern)
    decreases fuel
  {
    var link := LinkAt(links, n);
    if !link.Up? then ScanRun(Failure(Unavailable(link.reason)), [ScanReq(cursor, pattern)])
    else
      var page := pages(cursor, pattern);
      if page.next == 0 then ScanRun(Success(acc + page.batch), [ScanReq(cursor, pattern)])
      else
        var rest := ScanFrom(pages, links, n + 1, pattern, page.next, acc + page.batch, fuel - 1);
        ScanRun(rest.result, [ScanReq(cursor, pattern)] + rest.sent)
  }

  /** One page of ScanKeys against a Redis server: SCAN changes no data, it
      fails exactly when its attempt does not get through, and otherwise the
      iteration goes on from the page's cursor. */
  lemma ScanAfter(exec: Exec, pages: Pages, links: Links, n: nat, pattern: string, cursor: uint64, acc: seq<string>, fuel: nat,
                  data: map<string, seq<byte>>, res: Result<Reply>, after: map<string, seq<byte>>)
    requires IsRedis(exec, pages) && Ends(pages, pattern, cursor, fuel)
    requires Step(res, after) == Serve(exec, data, ScanReq(cursor, pattern), LinkAt(links, n))
    ensures after == data
    ensures var r := ScanFrom(pages, links, n, pattern, cursor, acc, fuel);
      var page := pages(cursor, pattern);
      && (res.Failure? ==> r == ScanRun(Failure(res.error), [ScanReq(cursor, pattern)]))
      && (res.Success? ==> res.value == Scanned(page))
      && (res.Success? && page.next == 0 ==> r == ScanRun(Success(acc + page.batch), [ScanReq(cursor, pattern)]))
      && (res.Success? && page.next != 0 ==>
            var rest := ScanFrom(pages, links, n + 1, pattern, page.next, acc + page.batch, fuel - 1);
            r == ScanRun(rest.result, [ScanReq(cursor, pattern)] + rest.sent))
  {
    assert exec(data, ScanReq(cursor, pattern)) == Execute(data, pages, ScanReq(cursor, pattern));
  }

  /** The keys of the pages at the cursors of the SCAN requests `sent`. */
  function Batches(pages: Pages, pattern: string, sent: seq<Request>): seq<string> {
    if sent == [] then []
    else (if sent[0].ScanReq? then pages(sent[0].cursor, pattern).batch else []) + Batches(pages, pattern, sent[1..])
  }

  /** The keys a SCAN iteration from `cursor` visits when nothing fails. */
  function Collect(pages: Pages, pattern: string, cursor: uint64, fuel: nat): seq<string>
    requires Ends(pages, pattern, cursor, fuel)
    decreases fuel
  {
    var page := pages(cursor, pattern);
    page.batch + if page.next == 0 then [] else Collect(pages, pattern, page.next, fuel - 1)
  }

  /** `sent` is a cursor chain from `cursor`: SCANs of `pattern`, the first at
      `cursor` and being attempt `n`, each but the last delivered with a
      non-zero cursor in its reply, and each after the first asking for the
      cursor the one before got back. */
  predicate Chained(pages: Pages, links: Links, n: nat, pattern: string, cursor: uint64, sent: seq<Request>)
    decreases |sent|
  {
    |sent| >= 1 ==>
      && sent[0] == ScanReq(cursor, pattern)
      && (|sent| > 1 ==>
            && LinkAt(links, n).Up?
            && pages(cursor, pattern).next != 0
            && Chained(pages, links, n + 1, pattern, pages(cursor, pattern).next, sent[1..]))
  }

  /** The requests ScanKeys sends form the cursor chain from its start. The
      iteration fails exactly when the last attempt did not get through, with
      that attempt's error, and otherwise it stops at the first page whose
      cursor is 0. */
  lemma {:induction false} ScanChain(pages: Pages, links: Links, n: nat, pattern: string, cursor: uint64, acc: seq<string>, fuel: nat)
    requires Ends(pages, pattern, cursor, fuel)
    ensures var r := ScanFrom(pages, links, n, pattern, cursor, acc, fuel);
      && |r.sent| <= fuel
      && Chained(pages, links, n, pattern, cursor, r.sent)
      && (r.result.Failure? <==> !LinkAt(links, n + |r.sent| - 1).Up?)
      && (r.result.Failure? ==> r.result.error == Unavailable(LinkAt(links, n + |r.sent| - 1).reason))
      && (r.result.Success? ==> var final := r.sent[|r.sent| - 1]; final.ScanReq? && pages(final.cursor, pattern).next == 0)
    decreases fuel
  {
    var page := pages(cursor, pattern);
    if LinkAt(links, n).Up? && page.next != 0 {
      ScanChain(pages, links, n + 1, pattern, page.next, acc + page.batch, fuel - 1);
      var rest := ScanFrom(pages, links, n + 1, pattern, page.next, acc + page.batch, fuel - 1);
      var sent := [ScanReq(cursor, pattern)] + rest.sent;
      assert sent[1..] == rest.sent;
      assert sent[|sent| - 1] == rest.sent[|rest.sent| - 1];
    }
  }

  /** A successful ScanKeys returns the batches of all the pages it requested,
      in page order, after what had been collected before. */
  lemma {:induction false} ScanCollects(pages: Pages, links: Links, n: nat, pattern: string, cursor: uint64, acc: seq<string>, fuel: nat)
    requires Ends(pages, pattern, cursor, fuel)
    ensures var r := ScanFrom(pages, links, n, pattern, cursor, acc, fuel);
      r.result.Success? ==> r.result.value == acc + Batches(pages, pattern, r.sent)
    decreases fuel
  {
    var page := pages(cursor, pattern);
    var r := ScanFrom(pages, links, n, pattern, cursor, acc, fuel);
    if LinkAt(links, n).Up? {
      if page.next == 0 {
        assert Batches(pages, pattern, r.sent) == page.batch + Batches(pages, pattern, []);
      } else {
        ScanCollects(pages, links, n + 1, pattern, page.next, acc + page.batch, fuel - 1);
        var rest := ScanFrom(pages, links, n + 1, pattern, page.next, acc + page.batch, fuel - 1);
        assert r.sent[1..] == rest.sent;
      }
    }
  }

  /** Over a network that delivers every page, ScanKeys returns the keys of the
      whole iteration. */
  lemma {:induction false} ScanHealthy(pages: Pages, links: Links, n: nat, pattern: string, cursor: uint64, acc: seq<string>, fuel: nat)
    requires Ends(pages, pattern, cursor, fuel)
    requires forall i :: n <= i < n + fuel ==> LinkAt(links, i) == Up
    ensures ScanFrom(pages, links, n, pattern, cursor, acc, fuel).result == Success(acc + Collect(pages, pattern, cursor, fuel))
    decreases fuel
  {
    var page := pages(cursor, pattern);
    if page.next != 0 {
      ScanHealthy(pages, links, n + 1, pattern, page.next, acc + page.batch, fuel - 1);
      assert (acc + page.batch) + Collect(pages, pattern, page.next, fuel - 1)
          == acc + Collect(pages, pattern, cursor, fuel);
    } else {
      assert page.batch + [] == page.batch;
    }
  }

  /** The client: every command goes to one server. */
  class RedisClient {
    const server: Server

    constructor (server: Server)
      ensures this.server == server
    {
      this.server := server;
    }

    /** What a retried command issued now will do. */
    ghost function Upcoming(req: Request): Run
      reads server
    {
      WithRetrySpec(server.exec, server.links, server.data, |server.log|, req)
    }

    /** What a ScanKeys issued now will do. */
    ghost function UpcomingScan(pattern: string): ScanRun
      reads server
      requires Ends(server.pages, pattern, 0, server.depth)
    {
      ScanFrom(server.pages, server.links, |server.log|, pattern, 0, [], server.depth)
    }

    method Set(key: string, value: seq<byte>) returns (err: Option<Error>)
      modifies server
      ensures var run := old(Upcoming(SetReq(key, value)));
        && err == ErrorOf(run.result)
        && server.data == run.data
        && server.log == old(server.log) + Repeat(SetReq(key, value), run.calls)
    {
      var res := WithRetry(server, SetReq(key, value));
      err := ErrorOf(res);
    }

    /** The bytes of the successful attempt, or the error of the last one. */
    method Get(key: string) returns (r: Result<seq<byte>>)
      requires server.Redis()
      modifies server
      ensures var run := old(Upcoming(GetReq(key)));
        && (r.Success? <==> run.result.Success?)
        && (r.Success? ==> run.result == Success(Bulk(r.value)))
        && (r.Failure? ==> run.result == Failure(r.error))
        && server.data == run.data
        && server.log == old(server.log) + Repeat(GetReq(key), run.calls)
      ensures server.data == old(server.data)
      ensures r.Success? ==> key in server.data && r.value == server.data[key]
      ensures r.Failure? ==> r.error == NotFound || r.error.Unavailable?
    {
      RetryGet(server.exec, server.pages, server.links, server.data, |server.log|, key, MaxAttempts, None);
      var res := WithRetry(server, GetReq(key));
      match res {
        case Success(reply) => r := Success(reply.bytes);
        case Failure(e) => r := Failure(e);
      }
    }

    method Delete(key: string) returns (err: Option<Error>)
      modifies server
      ensures var run := old(Upcoming(DelReq(key)));
        && err == ErrorOf(run.result)
        && server.data == run.data
        && server.log == old(server.log) + Repeat(DelReq(key), run.calls)
    {
      var res := WithRetry(server, DelReq(key));
      err := ErrorOf(res);
    }

    /** The new value of the successful attempt, or the error of the last one
        (Go returns 0 with it). */
    method IncrBy(key: string, delta: int64) returns (r: Result<int64>)
      requires server.Redis()
      modifies server
      ensures var run := old(Upcoming(IncrByReq(key, delta)));
        && (r.Success? <==> run.result.Success?)
        && (r.Success? ==> run.result == Success(Number(r.value)))
        && (r.Failure? ==> run.result == Failure(r.error))
        && server.data == run.data
        && server.log == old(server.log) + Repeat(IncrByReq(key, delta), run.calls)
    {
      RetryAnswers(server.exec, server.pages, server.links, server.data, |server.log|, IncrByReq(key, delta), MaxAttempts, None);
      var res := WithRetry(server, IncrByReq(key, delta));
      match res {
        case Success(reply) => r := Success(reply.n);
        case Failure(e) => r := Failure(e);
      }
    }

    /** SCAN from cursor 0 until the server returns cursor 0, appending the
        batches; the first failing page discards everything. */
    method ScanKeys(pattern: string) returns (r: Result<seq<string>>)
      requires server.Redis() && Ends(server.pages, pattern, 0, server.depth)
      modifies server
      ensures var scan := old(UpcomingScan(pattern));
        && r == scan.result
        && server.data == old(server.data)
        && server.log == old(server.log) + scan.sent
    {
      ghost var whole := UpcomingScan(pattern);
      ghost var rest := whole;
      ghost var fuel := server.depth;
      var cursor: uint64 := 0;
      var keys: seq<string> := [];
      while true
        invariant Ends(server.pages, pattern, cursor, fuel)
        invariant server.data == old(server.data)
        invariant rest == ScanFrom(server.pages, server.links, |server.log|, pattern, cursor, keys, fuel)
        invariant rest.result == whole.result && old(server.log) + whole.sent == server.log + rest.sent
        decreases fuel
      {
        ghost var n := |server.log|;
        var res := server.Attempt(ScanReq(cursor, pattern));
        ScanAfter(server.exec, server.pages, server.links, n, pattern, cursor, keys, fuel, old(server.data), res, server.data);
        if res.Failure? {
          return Failure(res.error);
        }
        var page := res.value.page;
        keys := keys + page.batch;
        cursor := page.next;
        if cursor == 0 {
          break;
        }
        fuel := fuel - 1;
        rest := ScanFrom(server.pages, server.links, |server.log|, pattern, cursor, keys, fuel);
      }
      return Success(keys);
    }
  }

  /** Two refused connections, then one that gets through: SET succeeds on
      the third and last attempt. */
  method RetryRecovers() returns (err: Option<Error>, attempts: nat, stored: Option<seq<byte>>)
    ensures err == None && attempts == 3 && stored == Some([49])
  {
    var refused := Refused("connection refused");
    var server := new Server(map[], [refused, refused], (c: uint64, p: string) => Page([], 0), 1);
    var client := new RedisClient(server);
    ghost var exec := server.exec;
    assert exec(map[], SetReq("k", [49])) == Execute(map[], server.pages, SetReq("k", [49]));
    err := client.Set("k", [49]);
    attempts := |server.log|;
    stored := if "k" in server.data then Some(server.data["k"]) else None;
  }

  /** Three refused connections: GET gives up and reports the third error. */
  method RetryGivesUp() returns (r: Result<seq<byte>>, attempts: nat)
    ensures r == Failure(Unavailable("third")) && attempts == 3
  {
    var links := [Refused("first"), Refused("second"), Refused("third")];
    var server := new Server(map["k" := [49]], links, (c: uint64, p: string) => Page([], 0), 1);
    var client := new RedisClient(server);
    RetryAllRefused(server.exec, links, map["k" := [49]], 0, GetReq("k"), MaxAttempts, None);
    r := client.Get("k");
    attempts := |server.log|;
  }
}
