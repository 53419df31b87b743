/** The response-body inspector (internal/failure/body.go): a bounded prefix is buffered and
    matched, and a replay stream hands the client the original bytes. */
module BodyInspection {
  import opened Types

  newtype byte = x: int | 0 <= x < 256

  /** How a stream ends once its bytes are used up. */
  datatype Ending = Eof | Fault

  datatype Status = More | Ended(ending: Ending) | ClosedPipe

  /** One `Read` call: the caller's buffer size, how many bytes the network delivers at once,
      and whether the end is reported together with the last bytes. */
  datatype Call = Call(room: nat, chunk: nat, eager: bool)

  function Min(a: nat, b: nat): nat { if a < b then a else b }

  /** How many of the remaining bytes one call delivers. */
  function Share(rest: nat, call: Call): nat {
    Min(Min(if call.chunk == 0 then 1 else call.chunk, call.room), rest)
  }

  /** The upstream's response body. */
  class Stream {
    var rest: seq<byte>
    const ending: Ending
    var closes: nat

    constructor (data: seq<byte>, ending: Ending)
      ensures rest == data && this.ending == ending && closes == 0
    {
      this.rest := data;
      this.ending := ending;
      this.closes := 0;
    }

    method Read(call: Call) returns (bytes: seq<byte>, status: Status)
      modifies this`rest
      ensures bytes + rest == old(rest) && |bytes| == Share(|old(rest)|, call)
      ensures status == if rest == [] && (old(rest) == [] || call.eager) then Ended(ending) else More
    {
      if rest == [] {
        return [], Ended(ending);
      }
      var n := Share(|rest|, call);
      bytes := rest[..n];
      rest := rest[n..];
      status := if rest == [] && call.eager then Ended(ending) else More;
    }

    method Close()
      modifies this`closes
      ensures closes == old(closes) + 1
    {
      closes := closes + 1;
    }
  }

  /** The call a reader with room for `left` more bytes makes; it always offers some room. */
  function Offer(call: Call, left: nat): Call {
    Call(Min(if call.room == 0 then 1 else call.room, left), call.chunk, call.eager)
  }

  /** Reading up to `left` more of `rest` bytes, from call `k` on, meets the stream's fault. */
  function PrefixFails(rest: nat, ending: Ending, left: nat, calls: nat -> Call, k: nat): bool
    decreases left
  {
    if left == 0 then false
    else
      var call := Offer(calls(k), left);
      var n := Share(rest, call);
      if rest == 0 || (n == rest && call.eager) then ending == Fault
      else PrefixFails(rest - n, ending, left - n, calls, k + 1)
  }

  /** A fault inside the window is always met; one exactly at its edge only if it comes with
      the last bytes; one beyond it, never. */
  lemma {:induction false} FailsInsideOnly(rest: nat, ending: Ending, left: nat, calls: nat -> Call, k: nat)
    ensures PrefixFails(rest, ending, left, calls, k) ==> ending == Fault && rest <= left
    ensures ending == Fault && rest < left ==> PrefixFails(rest, ending, left, calls, k)
    decreases left
  {
    if left != 0 {
      var call := Offer(calls(k), left);
      var n := Share(rest, call);
      if rest != 0 && !(n == rest && call.eager) {
        FailsInsideOnly(rest - n, ending, left - n, calls, k + 1);
      }
    }
  }

  /** `io.ReadAll(io.LimitReader(body, limit))`. */
  method ReadPrefix(body: Stream, limit: nat, calls: nat -> Call) returns (buf: seq<byte>, failed: bool)
    modifies body`rest
    ensures buf + body.rest == old(body.rest)
    ensures failed == PrefixFails(|old(body.rest)|, body.ending, limit, calls, 0)
    ensures !failed ==> |buf| == Min(limit, |old(body.rest)|)
  {
    buf := [];
    var k := 0;
    while |buf| < limit
      invariant |buf| <= limit && buf + body.rest == old(body.rest)
      invariant PrefixFails(|body.rest|, body.ending, limit - |buf|, calls, k)
        == PrefixFails(|old(body.rest)|, body.ending, limit, calls, 0)
      decreases limit - |buf|
    {
      var bytes, status := body.Read(Offer(calls(k), limit - |buf|));
      buf := buf + bytes;
      if status.Ended? {
        return buf, status.ending == Fault;
      }
      k := k + 1;
    }
    return buf, false;
  }

  class ReplayReader {
    const prefix: seq<byte>
    var at: nat
    const body: Stream
    var closed: bool

    ghost predicate Valid()
      reads this
    {
      at <= |prefix|
    }

    /** The bytes the client has not been given yet. */
    ghost function Remaining(): seq<byte>
      requires Valid()
      reads this, body
    {
      prefix[at..] + body.rest
    }

    constructor (prefix: seq<byte>, body: Stream)
      ensures Valid() && this.body == body && !closed
      ensures Remaining() == prefix + body.rest
    {
      this.prefix := prefix;
      this.at := 0;
      this.body := body;
      this.closed := false;
    }

    method Read(call: Call) returns (bytes: seq<byte>, status: Status)
      requires Valid()
      modifies this`at, body`rest
      ensures Valid() && |bytes| <= call.room
      ensures closed ==> bytes == [] && status == ClosedPipe && Remaining() == old(Remaining())
      ensures !closed ==> bytes + Remaining() == old(Remaining()) && status != ClosedPipe
      ensures !closed && call.room > 0 && old(Remaining()) != [] ==> bytes != []
      ensures status.Ended? ==> Remaining() == [] && status.ending == body.ending
      ensures !closed && old(Remaining()) == [] ==> status.Ended?
      ensures |old(body.rest)| - |body.rest| <= |bytes|
    {
      if closed {
        return [], ClosedPipe;
      }
      if at < |prefix| {
        var n := Min(call.room, |prefix| - at);
        bytes := prefix[at..at + n];
        assert prefix[at..] == bytes + prefix[at + n..];
        at := at + n;
        return bytes, More;
      }
      bytes, status := body.Read(call);
    }

    method Close()
      requires Valid()
      modifies this`closed, body`closes
      ensures Valid() && closed && Remaining() == old(Remaining())
      ensures body.closes == old(body.closes) + (if old(closed) then 0 else 1)
    {
      if closed {
        return;
      }
      closed := true;
      body.Close();
    }
  }

  predicate AllRoomy(calls: seq<Call>) {
    forall k :: 0 <= k < |calls| ==> calls[k].room > 0
  }

  /** Any sequence of reads delivers the original bytes in order, none lost and none repeated;
      enough reads with room deliver all of them. */
  method ReadAllCalls(r: ReplayReader, calls: seq<Call>) returns (out: seq<byte>)
    requires r.Valid() && !r.closed
    modifies r`at, r.body`rest
    ensures r.Valid() && out + r.Remaining() == old(r.Remaining())
    ensures AllRoomy(calls) && |calls| >= |old(r.Remaining())| ==> out == old(r.Remaining())
  {
    out := [];
    ghost var left := r.Remaining();
    ghost var roomy := AllRoomy(calls);
    for k := 0 to |calls|
      invariant r.Valid() && left == r.Remaining() && out + left == old(r.Remaining())
      invariant roomy ==> |out| >= k || left == []
    {
      var bytes, status := r.Read(calls[k]);
      assert left == bytes + r.Remaining();
      left := r.Remaining();
      out := out + bytes;
    }
  }

  // ---------------------------------------------------------------- the decision

  datatype Pattern = Pattern(source: string, matches: seq<byte> -> bool)

  /** `Direct` is the untouched body, `NoBody` stands in for a missing one. */
  datatype Replay = NoBody | Direct(body: Stream) | Spliced(reader: ReplayReader)

  datatype Decision = Inspected(matched: Option<string>, replay: Replay) | Skipped(replay: Replay) | ReadError

  /** The source of the first pattern that matches; nil patterns are passed over. */
  function FirstMatch(patterns: seq<Option<Pattern>>, buf: seq<byte>): Option<string> {
    if patterns == [] then None
    else if patterns[0].Some? && patterns[0].value.matches(buf) then Some(patterns[0].value.source)
    else FirstMatch(patterns[1..], buf)
  }

  lemma {:induction false} FirstMatchMeaning(patterns: seq<Option<Pattern>>, buf: seq<byte>)
    ensures FirstMatch(patterns, buf).None? <==>
      forall i :: 0 <= i < |patterns| && patterns[i].Some? ==> !patterns[i].value.matches(buf)
    ensures FirstMatch(patterns, buf).Some? ==>
      exists i :: 0 <= i < |patterns| && patterns[i].Some? && patterns[i].value.matches(buf)
        && patterns[i].value.source == FirstMatch(patterns, buf).value
        && forall j :: 0 <= j < i && patterns[j].Some? ==> !patterns[j].value.matches(buf)
  {
    if patterns != [] && !(patterns[0].Some? && patterns[0].value.matches(buf)) {
      var rest := patterns[1..];
      FirstMatchMeaning(rest, buf);
      assert forall i :: 1 <= i < |patterns| ==> patterns[i] == rest[i - 1];
      if FirstMatch(patterns, buf).Some? {
        var i :| 0 <= i < |rest| && rest[i].Some? && rest[i].value.matches(buf)
          && rest[i].value.source == FirstMatch(rest, buf).value
          && forall j :: 0 <= j < i && rest[j].Some? ==> !rest[j].value.matches(buf);
        assert patterns[i + 1] == rest[i];
        assert forall j :: 0 <= j < i + 1 && patterns[j].Some? ==> !patterns[j].value.matches(buf);
      }
    }
  }

  function Footprint(replay: Replay): set<object> {
    match replay
    case NoBody => {}
    case Direct(b) => {b}
    case Spliced(r) => {r, r.body}
  }

  /** The replay can still be read. */
  ghost predicate Usable(replay: Replay)
    reads Footprint(replay)
  {
    match replay
    case NoBody => false
    case Direct(_) => true
    case Spliced(r) => r.Valid() && !r.closed
  }

  /** The stream behind the replay. */
  function Source(replay: Replay): Stream
    requires !replay.NoBody?
  {
    if replay.Direct? then replay.body else replay.reader.body
  }

  /** The bytes the replay will still yield. */
  ghost function Pending(replay: Replay): seq<byte>
    requires Usable(replay)
    reads Footprint(replay)
  {
    if replay.Direct? then replay.body.rest else replay.reader.Remaining()
  }

  ghost predicate Faithful(replay: Replay, body: Stream, original: seq<byte>)
    reads Footprint(replay)
  {
    Usable(replay) && Source(replay) == body && Pending(replay) == original
  }

  method ReadReplay(replay: Replay, call: Call) returns (bytes: seq<byte>, status: Status)
    requires Usable(replay)
    modifies Footprint(replay)
    ensures Usable(replay) && bytes + Pending(replay) == old(Pending(replay)) && |bytes| <= call.room
    ensures Source(replay).closes == old(Source(replay).closes)
    ensures call.room > 0 && old(Pending(replay)) != [] ==> bytes != []
    ensures status != ClosedPipe
    ensures status.Ended? ==> Pending(replay) == [] && status.ending == Source(replay).ending
    ensures old(Pending(replay)) == [] ==> status.Ended?
    ensures |old(Source(replay).rest)| - |Source(replay).rest| <= |bytes|
  {
    match replay {
      case Direct(b) => bytes, status := b.Read(call);
      case Spliced(r) => bytes, status := r.Read(call);
    }
  }

  /** Closing what the inspector handed out closes the upstream's body, once. */
  method CloseReplay(replay: Replay)
    requires Usable(replay)
    modifies Footprint(replay)
    ensures Source(replay).closes == old(Source(replay).closes) + 1
    ensures replay.Spliced? ==> replay.reader.closed
    ensures Source(replay).rest == old(Source(replay).rest)
  {
    match replay {
      case Direct(b) => b.Close();
      case Spliced(r) => r.Close();
    }
  }

  /** `BufferAndDecide`. `plain` stands for an absent or "identity" Content-Encoding. */
  method BufferAndDecide(body: Stream?, plain: bool, limit: int, patterns: seq<Option<Pattern>>, calls: nat -> Call)
    returns (d: Decision)
    modifies if body == null then {} else {body}
    ensures body == null ==> d == Skipped(NoBody)
    ensures body != null && (limit <= 0 || patterns == [] || !plain) ==>
      d == Skipped(Direct(body)) && unchanged(body)
    // the replay yields exactly the original bytes, and nothing has been closed yet
    ensures body != null && !d.ReadError? ==>
      Faithful(d.replay, body, old(body.rest)) && body.closes == old(body.closes)
    // the decision looks at the first min(limit, length) bytes
    ensures body != null && d.Inspected? ==>
      limit > 0 && d.matched == FirstMatch(patterns, old(body.rest)[..Min(limit, |old(body.rest)|)])
      && d.replay.Spliced? && fresh(d.replay.reader)
    // a read error happens only inside the window, and closes the body once
    ensures body != null ==>
      (d.ReadError? <==>
        limit > 0 && patterns != [] && plain && PrefixFails(|old(body.rest)|, body.ending, limit, calls, 0))
    ensures d.ReadError? ==> body != null && body.closes == old(body.closes) + 1
    ensures body != null && !d.ReadError? ==> (d.Inspected? <==> limit > 0 && patterns != [] && plain)
  {
    if body == null {
      return Skipped(NoBody);
    }
    if limit <= 0 || patterns == [] || !plain {
      return Skipped(Direct(body));
    }
    ghost var original := body.rest;
    var buf, failed := ReadPrefix(body, limit, calls);
    if failed {
      body.Close();
      return ReadError;
    }
    assert buf == original[..|buf|];
    var reader := new ReplayReader(buf, body);
    for i := 0 to |patterns|
      invariant FirstMatch(patterns, buf) == FirstMatch(patterns[i..], buf)
      invariant Faithful(Spliced(reader), body, original) && body.closes == old(body.closes)
    {
      var p := patterns[i];
      if p.None? {
        continue;
      }
      if p.value.matches(buf) {
        return Inspected(Some(p.value.source), Spliced(reader));
      }
    }
    return Inspected(None, Spliced(reader));
  }
}
