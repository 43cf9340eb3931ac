/**
 The chunked body writer of axum_stream.rs against a reader of section 7.1 of RFC 9112. Bytes are
 characters below 256.
 */
module ChunkedFrames {
  import opened Wrappers
  import opened HexText

  type Bytes = string

  /** What polling the upstream yields; serialising an item may itself have failed. */
  datatype Upstream = Pending | Item(result: Result<Bytes, string>)

  /** What polling the body yields. */
  datatype Polled = NotReady | Frame(data: Bytes) | Failed(error: string) | End

  datatype FrameState = Idle | HeaderSent(data: Bytes) | DataSent

  const CRLF: Bytes := "\r\n"

  // ---------- one poll ----------

  datatype Body = Body(state: FrameState, upstream: seq<Upstream>)

  /**
   One call of `poll_frame`: the frame handed out and the body left behind. A serialised item leaves as
   length header, data and CRLF, one per poll.
   */
  function Poll(b: Body): (Polled, Body) {
    match b.state
    case HeaderSent(data) => (Frame(data), b.(state := DataSent))
    case DataSent => (Frame(CRLF), b.(state := Idle))
    case Idle =>
      if b.upstream == [] then (End, b)
      else
        var rest := b.upstream[1..];
        match b.upstream[0]
        case Pending => (NotReady, Body(Idle, rest))
        case Item(Err(e)) => (Failed(e), Body(Idle, rest))
        case Item(Ok(buf)) => (Frame(UpperHex(|buf|) + CRLF), Body(HeaderSent(buf), rest))
  }

  class StreamingBody {
    var frameState: FrameState
    var stream: seq<Upstream>

    constructor (stream: seq<Upstream>)
      ensures View() == Body(Idle, stream)
    {
      this.stream := stream;
      frameState := Idle;
    }

    ghost function View(): Body
      reads this
    {
      Body(frameState, stream)
    }

    method PollFrame() returns (r: Polled)
      modifies this
      ensures (r, View()) == Poll(old(View()))
    {
      match frameState {
        case Idle =>
        case HeaderSent(data) =>
          frameState := DataSent;
          return Frame(data);
        case DataSent =>
          frameState := Idle;
          return Frame(CRLF);
      }
      if stream == [] {
        return End;
      }
      var next := stream[0];
      stream := stream[1..];
      match next {
        case Pending => return NotReady;
        case Item(Ok(buf)) =>
          var lenFrame := UpperHex(|buf|) + CRLF;
          frameState := HeaderSent(buf);
          return Frame(lenFrame);
        case Item(Err(e)) => return Failed(e);
      }
    }
  }

  // ---------- whole runs ----------

  /** The body after `n` polls. */
  function After(b: Body, n: nat): Body
    decreases n
  {
    if n == 0 then b else After(Poll(b).1, n - 1)
  }

  /** The bytes handed out by the first `n` polls. */
  function Sent(b: Body, n: nat): Bytes
    decreases n
  {
    if n == 0 then []
    else (if Poll(b).0.Frame? then Poll(b).0.data else []) + Sent(Poll(b).1, n - 1)
  }

  /** The items that serialised, in order. */
  function OkItems(us: seq<Upstream>): seq<Bytes> {
    if us == [] then []
    else (if us[0].Item? && us[0].result.Ok? then [us[0].result.value] else []) + OkItems(us[1..])
  }

  function Chunk(item: Bytes): Bytes {
    UpperHex(|item|) + CRLF + item + CRLF
  }

  function Chunks(items: seq<Bytes>): Bytes {
    if items == [] then [] else Chunk(items[0]) + Chunks(items[1..])
  }

  /** What is still to come of the item whose header has left. */
  function Unsent(s: FrameState): Bytes {
    match s
    case Idle => []
    case HeaderSent(data) => data + CRLF
    case DataSent => CRLF
  }

  /** Everything the body will ever send. */
  function Owed(b: Body): Bytes {
    Unsent(b.state) + Chunks(OkItems(b.upstream))
  }

  lemma PollPaysOwed(b: Body)
    ensures Owed(b) == (if Poll(b).0.Frame? then Poll(b).0.data else []) + Owed(Poll(b).1)
  {
    match b.state
    case HeaderSent(data) =>
    case DataSent =>
    case Idle =>
      if b.upstream != [] && b.upstream[0].Item? && b.upstream[0].result.Ok? {
        var buf := b.upstream[0].result.value;
        var items := OkItems(b.upstream);
        assert items[0] == buf && items[1..] == OkItems(b.upstream[1..]);
        assert Chunks(items) == Chunk(buf) + Chunks(items[1..]);
        assert Owed(b) == (UpperHex(|buf|) + CRLF) + (buf + CRLF + Chunks(items[1..]));
      } else if b.upstream != [] {
        assert OkItems(b.upstream) == OkItems(b.upstream[1..]);
      }
  }

  /** At every moment the bytes sent and the bytes owed make up the same text. */
  lemma {:induction false} SentAndOwed(b: Body, n: nat)
    ensures Sent(b, n) + Owed(After(b, n)) == Owed(b)
    decreases n
  {
    PollPaysOwed(b);
    if n > 0 {
      SentAndOwed(Poll(b).1, n - 1);
    }
  }

  function PollsLeft(b: Body): nat {
    3 * |b.upstream| + (match b.state case Idle => 0 case HeaderSent(_) => 2 case DataSent => 1)
  }

  /** Polling often enough ends the body, with nothing left to send. */
  lemma {:induction false} EnoughPolls(b: Body, n: nat)
    requires n >= PollsLeft(b)
    ensures After(b, n) == Body(Idle, [])
    decreases n
  {
    if n > 0 {
      EnoughPolls(Poll(b).1, n - 1);
    }
  }

  // ---------- what every poll yields ----------

  /**
   What an element of the stream makes the body yield: its length in hex with CRLF, its bytes, and
   CRLF, a poll each.
   */
  function Yields(u: Upstream): seq<Polled> {
    match u
    case Pending => [NotReady]
    case Item(Err(e)) => [Failed(e)]
    case Item(Ok(buf)) => [Frame(UpperHex(|buf|) + "\r\n"), Frame(buf), Frame("\r\n")]
  }

  function Script(us: seq<Upstream>): seq<Polled> {
    if us == [] then [] else Yields(us[0]) + Script(us[1..])
  }

  /** What is left of the script. */
  function Rest(b: Body): seq<Polled> {
    match b.state
    case Idle => Script(b.upstream)
    case HeaderSent(data) => [Frame(data), Frame("\r\n")] + Script(b.upstream)
    case DataSent => [Frame("\r\n")] + Script(b.upstream)
  }

  lemma PollFollowsScript(b: Body)
    ensures Rest(b) == [] ==> Poll(b) == (End, b)
    ensures Rest(b) != [] ==> Poll(b).0 == Rest(b)[0] && Rest(Poll(b).1) == Rest(b)[1..]
  {
    hide UpperHex, Script;
    match b.state
    case HeaderSent(data) =>
      assert ([Frame(data), Frame("\r\n")] + Script(b.upstream))[1..] == [Frame("\r\n")] + Script(b.upstream);
    case DataSent =>
    case Idle =>
      if b.upstream == [] {
        EmptyScript();
      } else {
        IdleFollowsScript(b.upstream);
      }
  }

  lemma EmptyScript()
    ensures Script([]) == []
  {
  }

  lemma IdleFollowsScript(us: seq<Upstream>)
    requires us != []
    ensures var b := Body(Idle, us);
            Rest(b) != [] && Poll(b).0 == Rest(b)[0] && Rest(Poll(b).1) == Rest(b)[1..]
  {
    hide UpperHex;
    var rest := Script(us[1..]);
    match us[0]
    case Pending =>
      assert ([NotReady] + rest)[1..] == rest;
    case Item(Err(e)) =>
      assert ([Failed(e)] + rest)[1..] == rest;
    case Item(Ok(buf)) =>
      var head := Frame(UpperHex(|buf|) + "\r\n");
      assert ([head, Frame(buf), Frame("\r\n")] + rest)[1..] == [Frame(buf), Frame("\r\n")] + rest;
  }

  lemma {:induction false} ResultAfter(b: Body, k: nat)
    ensures Poll(After(b, k)).0 == if k < |Rest(b)| then Rest(b)[k] else End
    decreases k
  {
    PollFollowsScript(b);
    if k > 0 {
      ResultAfter(Poll(b).1, k - 1);
    }
  }

  /**
   Poll by poll: each element of the stream yields what it should, in order, once, an error among
   them, and only when the stream is used up the end, then and ever after.
   */
  lemma PollYields(upstream: seq<Upstream>, k: nat)
    ensures var script := Script(upstream);
            Poll(After(Body(Idle, upstream), k)).0 == if k < |script| then script[k] else End
  {
    ResultAfter(Body(Idle, upstream), k);
  }

  // ---------- the reader ----------

  /** How reading a text of chunks ended. */
  datatype Tail = AtBoundary | LastChunk(rest: Bytes) | Incomplete | Malformed

  datatype Reading = Reading(items: seq<Bytes>, tail: Tail)

  /** The longest run of hex digits at the front. */
  function DigitRun(s: Bytes): (n: nat)
    ensures n <= |s| && IsHex(s[..n])
    ensures n < |s| ==> !IsHexDigit(s[n])
  {
    if s == [] || !IsHexDigit(s[0]) then 0 else 1 + DigitRun(s[1..])
  }

  /**
   chunk = chunk-size CRLF chunk-data CRLF, read until the text ends or a chunk of size zero
   (the last-chunk) is met.
   */
  function ReadChunks(s: Bytes): Reading
    decreases |s|
  {
    if s == [] then Reading([], AtBoundary)
    else
      var k := DigitRun(s);
      if |s| < k + 2 then Reading([], if s[k..] <= "\r\n" then Incomplete else Malformed)
      else if k == 0 || s[k..k + 2] != "\r\n" then Reading([], Malformed)
      else
        var size, data := ParseHex(s[..k]), s[k + 2..];
        if size == 0 then Reading([], LastChunk(data))
        else if |data| < size + 2 then
          Reading([], if |data| <= size || data[size..] <= "\r\n" then Incomplete else Malformed)
        else if data[size..size + 2] != "\r\n" then Reading([], Malformed)
        else
          var more := ReadChunks(data[size + 2..]);
          Reading([data[..size]] + more.items, more.tail)
  }

  lemma {:induction false} DigitRunIs(digits: Bytes, rest: Bytes)
    requires IsHex(digits) && (rest == [] || !IsHexDigit(rest[0]))
    ensures DigitRun(digits + rest) == |digits|
  {
    if digits == [] {
      assert digits + rest == rest;
    } else {
      assert (digits + rest)[1..] == digits[1..] + rest;
      DigitRunIs(digits[1..], rest);
    }
  }

  lemma ReadHeader(item: Bytes, rest: Bytes)
    ensures var s := UpperHex(|item|) + CRLF + rest;
            var k := |UpperHex(|item|)|;
            DigitRun(s) == k && k > 0 && |s| >= k + 2 && s[k..k + 2] == CRLF
            && ParseHex(s[..k]) == |item| && s[k + 2..] == rest
  {
    var h := UpperHex(|item|);
    var s := h + CRLF + rest;
    assert s == h + (CRLF + rest);
    DigitRunIs(h, CRLF + rest);
    assert s[..|h|] == h;
    ParseUpperHex(|item|);
  }

  /** A chunk at the front reads as its item, unless it is the chunk of an empty item. */
  lemma ReadChunk(item: Bytes, rest: Bytes)
    ensures item != [] ==> var more := ReadChunks(rest);
                           ReadChunks(Chunk(item) + rest) == Reading([item] + more.items, more.tail)
    ensures item == [] ==> ReadChunks(Chunk(item) + rest) == Reading([], LastChunk(CRLF + rest))
  {
    var data := item + CRLF + rest;
    assert Chunk(item) + rest == UpperHex(|item|) + CRLF + data;
    ReadHeader(item, data);
    assert data[..|item|] == item;
    assert data[|item|..|item| + 2] == CRLF;
    assert data[|item| + 2..] == rest;
    assert item == [] ==> data == CRLF + rest;
  }

  function BeforeFirstEmpty(items: seq<Bytes>): (r: seq<Bytes>)
    ensures r <= items && [] !in r
    ensures r == items <==> [] !in items
  {
    if items == [] || items[0] == [] then [] else [items[0]] + BeforeFirstEmpty(items[1..])
  }

  lemma ReadNothing()
    ensures ReadChunks([]) == Reading([], AtBoundary)
  {
  }

  /** The reader recovers the items up to the first empty one, whose chunk is the last-chunk. */
  lemma {:induction false} ReadBack(items: seq<Bytes>)
    ensures ReadChunks(Chunks(items)).items == BeforeFirstEmpty(items)
    ensures ReadChunks(Chunks(items)).tail.AtBoundary? <==> [] !in items
  {
    ReadNothing();
    hide ReadChunks;
    if items != [] {
      ReadBack(items[1..]);
      ReadChunk(items[0], Chunks(items[1..]));
      assert items == [items[0]] + items[1..];
    }
  }

  /**
   Over a whole run, whatever is pending or failing in between, the bytes sent read back as the
   items of the stream, ending on a chunk boundary, exactly when no item is empty.
   */
  lemma BodyIsUniquelyDecodable(upstream: seq<Upstream>, n: nat)
    requires n >= 3 * |upstream|
    ensures var items := OkItems(upstream);
            ReadChunks(Sent(Body(Idle, upstream), n)) == Reading(items, AtBoundary) <==> [] !in items
    ensures ReadChunks(Sent(Body(Idle, upstream), n)).items == BeforeFirstEmpty(OkItems(upstream))
  {
    var b := Body(Idle, upstream);
    SentAndOwed(b, n);
    EnoughPolls(b, n);
    assert Sent(b, n) == Owed(b);
    assert Owed(b) == Chunks(OkItems(upstream));
    ReadBack(OkItems(upstream));
  }

  /** Two streams without empty items that put the same bytes on the wire carry the same items. */
  lemma SameBytesSameItems(xs: seq<Bytes>, ys: seq<Bytes>)
    requires [] !in xs && [] !in ys
    requires Chunks(xs) == Chunks(ys)
    ensures xs == ys
  {
    ReadBack(xs);
    ReadBack(ys);
  }

  // ---------- stopping early ----------

  /** The items whose closing CRLF left within the first `n` polls. */
  function Delivered(b: Body, n: nat): seq<Bytes>
    decreases n
  {
    if n == 0 then []
    else
      (if b.state.Idle? && b.upstream != [] && b.upstream[0].Item? && b.upstream[0].result.Ok? && n >= 3
       then [b.upstream[0].result.value] else [])
      + Delivered(Poll(b).1, n - 1)
  }

  lemma Unroll3(b: Body, n: nat)
    requires n >= 3 && b.state.Idle? && b.upstream != []
    requires b.upstream[0].Item? && b.upstream[0].result.Ok?
    ensures var item, next := b.upstream[0].result.value, Body(Idle, b.upstream[1..]);
            Sent(b, n) == Chunk(item) + Sent(next, n - 3)
            && Delivered(b, n) == [item] + Delivered(next, n - 3)
  {
    var item := b.upstream[0].result.value;
    var b1 := Poll(b).1;
    var b2 := Poll(b1).1;
    assert Poll(b2).1 == Body(Idle, b.upstream[1..]);
    assert Sent(b1, n - 1) == item + Sent(b2, n - 2);
    assert Sent(b2, n - 2) == CRLF + Sent(Poll(b2).1, n - 3);
    assert Delivered(b2, n - 2) == Delivered(Poll(b2).1, n - 3);
    assert Delivered(b1, n - 1) == Delivered(b2, n - 2);
  }

  lemma CutShort(s: Bytes, k: nat)
    requires 0 < k == DigitRun(s) && k + 2 <= |s| && s[k..k + 2] == "\r\n"
    requires |s[k + 2..]| <= ParseHex(s[..k]) && ParseHex(s[..k]) > 0
    ensures ReadChunks(s) == Reading([], Incomplete)
  {
    hide ParseHex, DigitRun;
  }

  lemma PartialChunk(item: Bytes, n: nat)
    requires 0 < n < 3 && item != []
    ensures var s := UpperHex(|item|) + CRLF + (if n == 1 then [] else item);
            ReadChunks(s) == Reading([], Incomplete)
  {
    hide UpperHex, ParseHex, DigitRun, ReadChunks;
    var data := if n == 1 then [] else item;
    ReadHeader(item, data);
    CutShort(UpperHex(|item|) + CRLF + data, |UpperHex(|item|)|);
  }

  /** What `PrefixReadsBack` says of one body. */
  ghost predicate ReadsBackSoFar(b: Body, n: nat) {
    ReadChunks(Sent(b, n)) ==
    Reading(Delivered(b, n), if After(b, n).state.Idle? then AtBoundary else Incomplete)
  }

  lemma WholeChunk(b: Body, n: nat)
    requires n >= 3 && b.state.Idle? && b.upstream != []
    requires b.upstream[0].Item? && b.upstream[0].result.Ok? && b.upstream[0].result.value != []
    requires ReadsBackSoFar(Body(Idle, b.upstream[1..]), n - 3)
    ensures ReadsBackSoFar(b, n)
  {
    Unroll3(b, n);
    ReadChunk(b.upstream[0].result.value, Sent(Body(Idle, b.upstream[1..]), n - 3));
    var b1 := Poll(b).1;
    var b2 := Poll(b1).1;
    assert After(b, n) == After(b1, n - 1) == After(b2, n - 2) == After(Poll(b2).1, n - 3);
  }

  lemma StartedChunk(b: Body, n: nat)
    requires 0 < n < 3 && b.state.Idle? && b.upstream != []
    requires b.upstream[0].Item? && b.upstream[0].result.Ok? && b.upstream[0].result.value != []
    ensures ReadsBackSoFar(b, n)
  {
    var item := b.upstream[0].result.value;
    PartialChunk(item, n);
    var b1 := Poll(b).1;
    var b2 := Poll(b1).1;
    if n == 1 {
      assert Sent(b, 1) == UpperHex(|item|) + CRLF + Sent(b1, 0);
      assert After(b, 1) == After(b1, 0) == b1 && Delivered(b, 1) == Delivered(b1, 0) == [];
    } else {
      assert Sent(b1, 1) == item + Sent(b2, 0) == item;
      assert Sent(b, 2) == UpperHex(|item|) + CRLF + Sent(b1, 1);
      assert After(b, 2) == After(b1, 1) == After(b2, 0) == b2;
      assert Delivered(b, 2) == Delivered(b1, 1) == Delivered(b2, 0) == [];
    }
  }

  lemma SkippedItem(b: Body, n: nat)
    requires n > 0 && b.state.Idle? && b.upstream != []
    requires b.upstream[0].Pending? || b.upstream[0].result.Err?
    requires ReadsBackSoFar(Body(Idle, b.upstream[1..]), n - 1)
    ensures ReadsBackSoFar(b, n)
  {
    var next := Body(Idle, b.upstream[1..]);
    assert Sent(b, n) == [] + Sent(next, n - 1) == Sent(next, n - 1);
    assert Delivered(b, n) == [] + Delivered(next, n - 1) == Delivered(next, n - 1);
    assert After(b, n) == After(next, n - 1);
  }

  lemma NoEmptyItems(upstream: seq<Upstream>)
    requires [] !in OkItems(upstream) && upstream != []
    ensures [] !in OkItems(upstream[1..])
    ensures upstream[0].Item? && upstream[0].result.Ok? ==> upstream[0].result.value != []
  {
    if upstream[0].Item? && upstream[0].result.Ok? {
      assert OkItems(upstream) == [upstream[0].result.value] + OkItems(upstream[1..]);
      assert upstream[0].result.value in OkItems(upstream);
    }
  }

  lemma NothingSent(upstream: seq<Upstream>, n: nat)
    requires n == 0 || upstream == []
    ensures ReadsBackSoFar(Body(Idle, upstream), n)
  {
    NothingMore(n);
  }

  /**
   Stopped after any number of polls, the bytes sent read back as exactly the items whose three
   frames have all left, and the reader knows whether it stands between two chunks.
   */
  lemma {:induction false} PrefixReadsBack(upstream: seq<Upstream>, n: nat)
    requires [] !in OkItems(upstream)
    ensures ReadsBackSoFar(Body(Idle, upstream), n)
    decreases n
  {
    hide ReadsBackSoFar;
    if n == 0 || upstream == [] {
      NothingSent(upstream, n);
      return;
    }
    NoEmptyItems(upstream);
    if upstream[0].Item? && upstream[0].result.Ok? {
      if n >= 3 {
        PrefixReadsBack(upstream[1..], n - 3);
        WholeChunk(Body(Idle, upstream), n);
      } else {
        StartedChunk(Body(Idle, upstream), n);
      }
    } else {
      PrefixReadsBack(upstream[1..], n - 1);
      SkippedItem(Body(Idle, upstream), n);
    }
  }

  lemma {:induction false} NothingMore(n: nat)
    ensures Sent(Body(Idle, []), n) == [] && Delivered(Body(Idle, []), n) == []
    ensures After(Body(Idle, []), n) == Body(Idle, [])
  {
    if n > 0 {
      NothingMore(n - 1);
    }
  }
}
