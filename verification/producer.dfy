/** The producer service's request listener: a fixed chain of checks turns
    an HTTP request into an error status or into a number of messages, and
    the accepted request enqueues that many freshly generated identifiers
    before answering 204.

    The request is taken after its body was parsed: only the `quantity`
    field of the JSON body matters, and the random draws (the default
    quantity and the identifiers) are parameters. */
module Producer {
  import opened Transport

  const NoContent: nat := 204
  const BadRequest: nat := 400
  const NotFound: nat := 404
  const MethodNotAllowed: nat := 405
  const UnsupportedMediaType: nat := 415

  const ProducePath: string := "produce"
  const JsonMediaType: string := "application/json"
  const Post: string := "POST"

  /** The `quantity` field of the parsed body: missing, a finite number, or
      anything `Number.isFinite` rejects (a non-finite number, a string,
      `null`, an object, ...). */
  datatype Quantity = Absent | Finite(value: real) | NotFinite

  /** The parts of a request the listener looks at. `contentType` is the
      `content-type` header, `None` when the request has none. */
  datatype Request = Request(url: string, httpMethod: string, contentType: Option<string>,
                             quantity: Quantity)

  /** What the listener decides: answer with an error status and enqueue
      nothing, or enqueue `count` messages and answer 204. */
  datatype Verdict = Reject(status: nat) | Accept(count: nat)

  function StatusOf(v: Verdict): nat {
    match v
    case Reject(s) => s
    case Accept(_) => NoContent
  }

  // ---------------------------------------------------------------------
  // The path check: `req.url.match(/\/?produce\/?/)`
  // ---------------------------------------------------------------------

  /** `t` occurs in `s` at position `i`. */
  predicate HasAt(s: string, i: nat, t: string) {
    i + |t| <= |s| && s[i..i + |t|] == t
  }

  /** One attempt of the pattern at position `i`. The leading `\/?` is
      greedy, so a slash is consumed first and, failing that, the attempt is
      retried without it; the trailing `\/?` always matches. */
  predicate MatchesAt(url: string, i: nat) {
    (i < |url| && url[i] == '/' && HasAt(url, i + 1, ProducePath)) || HasAt(url, i, ProducePath)
  }

  /** The unanchored search: start positions `i`, `i + 1`, ... up to the end
      of the URL are tried in turn. */
  function Search(url: string, i: nat): (found: bool)
    requires i <= |url|
    ensures found <==> exists j :: i <= j <= |url| && MatchesAt(url, j)
    decreases |url| - i
  {
    MatchesAt(url, i) || (i < |url| && Search(url, i + 1))
  }

  predicate PathMatches(url: string) {
    Search(url, 0)
  }

  /** Because the pattern is unanchored and both slashes are optional, the
      path check accepts exactly the URLs that contain `produce` anywhere. */
  lemma PathMatchesIffContainsProduce(url: string)
    ensures PathMatches(url) <==> exists k: nat :: HasAt(url, k, ProducePath)
  {
    if PathMatches(url) {
      var j :| 0 <= j <= |url| && MatchesAt(url, j);
      if HasAt(url, j, ProducePath) {
      } else {
        assert HasAt(url, j + 1, ProducePath);
      }
    }
    if k: nat :| HasAt(url, k, ProducePath) {
      assert MatchesAt(url, k);
    }
  }

  /** `/produce` and `/produce/` pass the path check. */
  lemma ProducePathMatches()
    ensures PathMatches("/produce") && PathMatches("/produce/")
  {
    assert MatchesAt("/produce", 0);
    assert MatchesAt("/produce/", 0);
  }

  /** So do URLs that merely contain the word: `/reproduce`, or a query
      string that mentions it. */
  lemma UnanchoredPathMatches()
    ensures PathMatches("/reproduce") && PathMatches("/other?next=produce")
  {
    ContainedWordMatches("/re");
    ContainedWordMatches("/other?next=");
    assert "/re" + ProducePath == "/reproduce";
    assert "/other?next=" + ProducePath == "/other?next=produce";
  }

  /** Any prefix followed by the word passes the path check. */
  lemma ContainedWordMatches(prefix: string)
    ensures PathMatches(prefix + ProducePath)
  {
    var url := prefix + ProducePath;
    assert url[|prefix|..|prefix| + |ProducePath|] == ProducePath;
    assert MatchesAt(url, |prefix|);
  }

  /** `/other` does not: it is shorter than the word. */
  lemma OtherPathRejected()
    ensures !PathMatches("/other")
  {
    PathMatchesIffContainsProduce("/other");
  }

  // ---------------------------------------------------------------------
  // The quantity and the verdict
  // ---------------------------------------------------------------------

  /** `Math.random() * 40 + 10`, the quantity used when the body has none,
      with the random draw as a parameter in [0, 1). */
  function DefaultQuantity(random: real): (q: real)
    requires 0.0 <= random < 1.0
    ensures 10.0 <= q < 50.0
  {
    random * 40.0 + 10.0
  }

  /** The loop `for (let i = 0; i < quantity; i += 1)` runs once for every
      whole number below `quantity`: the ceiling of `quantity`, which is
      `quantity` itself when that is a whole number. Numbers here are exact;
      with IEEE doubles this holds for quantities up to 2^53, above which
      `i += 1` no longer changes `i` and the loop does not end. */
  function SendCount(quantity: real): (n: nat)
    requires quantity >= 1.0
    ensures n as real >= quantity && (n - 1) as real < quantity
    ensures quantity.Floor as real == quantity ==> n as real == quantity
    ensures n >= 1
  {
    var f := quantity.Floor;
    if f as real == quantity then f else f + 1
  }

  /** The listener's decision, checks in the source's order: path (404),
      method (405), content type (415), then the quantity (400). */
  function Classify(req: Request, random: real): (v: Verdict)
    requires 0.0 <= random < 1.0
    ensures v.Reject? ==> v.status in {NotFound, MethodNotAllowed, UnsupportedMediaType, BadRequest}
    ensures v.Accept? ==> v.count >= 1
  {
    if !PathMatches(req.url) then Reject(NotFound)
    else if req.httpMethod != Post then Reject(MethodNotAllowed)
    else if req.contentType != Some(JsonMediaType) then Reject(UnsupportedMediaType)
    else
      match req.quantity
      case NotFinite => Reject(BadRequest)
      case Absent => Accept(SendCount(DefaultQuantity(random)))
      case Finite(q) => if q < 1.0 then Reject(BadRequest) else Accept(SendCount(q))
  }

  /** A request is accepted exactly when it passes all four checks. */
  lemma AcceptedIff(req: Request, random: real)
    requires 0.0 <= random < 1.0
    ensures Classify(req, random).Accept? <==>
              PathMatches(req.url) && req.httpMethod == Post
              && req.contentType == Some(JsonMediaType)
              && (req.quantity.Absent? || (req.quantity.Finite? && req.quantity.value >= 1.0))
  {
  }

  /** The order of the checks: a failed earlier check decides the status
      whatever the later ones would say. */
  lemma CheckOrder(req: Request, random: real)
    requires 0.0 <= random < 1.0
    ensures !PathMatches(req.url) ==> Classify(req, random) == Reject(NotFound)
    ensures PathMatches(req.url) && req.httpMethod != Post ==>
              Classify(req, random) == Reject(MethodNotAllowed)
    ensures PathMatches(req.url) && req.httpMethod == Post && req.contentType != Some(JsonMediaType) ==>
              Classify(req, random) == Reject(UnsupportedMediaType)
    ensures PathMatches(req.url) && req.httpMethod == Post && req.contentType == Some(JsonMediaType)
            && (req.quantity.NotFinite? || (req.quantity.Finite? && req.quantity.value < 1.0)) ==>
              Classify(req, random) == Reject(BadRequest)
    ensures Classify(req, random) == Reject(BadRequest) ==>
              PathMatches(req.url) && req.httpMethod == Post
              && req.contentType == Some(JsonMediaType)
              && (req.quantity.NotFinite? || (req.quantity.Finite? && req.quantity.value < 1.0))
  {
  }

  /** How many messages an accepted request enqueues: `ceil(quantity)` for
      a given quantity (exactly the quantity when it is whole), and between
      10 and 50 when the body gives none. */
  lemma AcceptedCount(req: Request, random: real)
    requires 0.0 <= random < 1.0
    requires Classify(req, random).Accept?
    ensures var n := Classify(req, random).count;
            match req.quantity
            case Finite(q) => (n - 1) as real < q <= n as real
                              && (q.Floor as real == q ==> n as real == q)
            case Absent => 10 <= n <= 50
            case NotFinite => false
  {
    if req.quantity.Absent? {
      var q := DefaultQuantity(random);
      var n := SendCount(q);
      assert (n - 1) as real < 50.0 && n as real >= 10.0;
    }
  }

  /** Representative requests and their answers. */
  lemma RequestExamples(random: real)
    requires 0.0 <= random < 1.0
    ensures Classify(Request("/produce", "POST", Some("application/json"), Finite(5.0)), random) == Accept(5)
    ensures Classify(Request("/produce", "POST", Some("application/json"), Finite(0.0)), random) == Reject(BadRequest)
    ensures Classify(Request("/produce", "POST", Some("application/json"), Finite(2.5)), random) == Accept(3)
    ensures Classify(Request("/produce", "GET", Some("application/json"), Finite(5.0)), random) == Reject(MethodNotAllowed)
    ensures Classify(Request("/other", "POST", Some("application/json"), Finite(5.0)), random) == Reject(NotFound)
    ensures Classify(Request("/produce", "POST", Some("text/plain"), Finite(5.0)), random) == Reject(UnsupportedMediaType)
    ensures Classify(Request("/produce", "POST", Some("application/json; charset=utf-8"), Finite(5.0)), random)
            == Reject(UnsupportedMediaType)
    ensures Classify(Request("/produce", "POST", None, Finite(5.0)), random) == Reject(UnsupportedMediaType)
  {
    ProducePathMatches();
    OtherPathRejected();
    assert "application/json; charset=utf-8" != JsonMediaType by {
      assert |"application/json; charset=utf-8"| != |JsonMediaType|;
    }
    assert "text/plain" != JsonMediaType by {
      assert "text/plain"[0] != JsonMediaType[0];
    }
    assert "GET" != Post by {
      assert |"GET"| != |Post|;
    }
  }

  // ---------------------------------------------------------------------
  // The listener
  // ---------------------------------------------------------------------

  /** The identifiers generated by the first `n` iterations of the send
      loop, where `uuid(i)` is what `crypto.randomUUID()` returned in
      iteration `i`. */
  function Uuids(uuid: nat -> Msg, n: nat): (ids: seq<Msg>)
    ensures |ids| == n
    ensures forall i :: 0 <= i < n ==> ids[i] == uuid(i)
  {
    if n == 0 then [] else Uuids(uuid, n - 1) + [uuid(n - 1)]
  }

  /** The request listener bound to a channel: answer an error status with
      nothing enqueued, or send one fresh identifier per loop iteration and
      answer 204. The loop counter is an exact natural, so the loop always
      ends; see `SendCount` for the range where that matches doubles. */
  method HandleRequest(ch: Channel, req: Request, random: real, uuid: nat -> Msg)
    returns (status: nat)
    requires 0.0 <= random < 1.0
    modifies ch
    ensures status == StatusOf(Classify(req, random))
    ensures Classify(req, random).Reject? ==> ch.ready == old(ch.ready)
    ensures Classify(req, random).Accept? ==>
              ch.ready == old(ch.ready) + Uuids(uuid, Classify(req, random).count)
    ensures ch.unacked == old(ch.unacked) && ch.acked == old(ch.acked)
  {
    if !PathMatches(req.url) {
      return NotFound;
    }
    if req.httpMethod != Post {
      return MethodNotAllowed;
    }
    if req.contentType != Some(JsonMediaType) {
      return UnsupportedMediaType;
    }
    var quantity: real;
    match req.quantity {
      case NotFinite =>
        return BadRequest;
      case Absent =>
        quantity := DefaultQuantity(random);
      case Finite(q) =>
        quantity := q;
    }
    if quantity < 1.0 {
      return BadRequest;
    }
    assert Classify(req, random) == Accept(SendCount(quantity));
    var i: nat := 0;
    while (i as real) < quantity
      invariant (i - 1) as real < quantity
      invariant i <= SendCount(quantity)
      invariant ch.ready == old(ch.ready) + Uuids(uuid, i)
      invariant ch.unacked == old(ch.unacked) && ch.acked == old(ch.acked)
      decreases SendCount(quantity) - i
    {
      ch.SendToQueue(uuid(i));
      i := i + 1;
    }
    assert i == SendCount(quantity);
    return NoContent;
  }
}
