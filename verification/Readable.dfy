/**
 The read side of a stream in byte mode, as `_readableState` and the functions around it
 keep it. Whatever `_read` pushes before it returns is a parameter of the call that runs it.
 */
module Readable {
  import opened Options
  import opened Sequences
  import opened StreamLog
  import opened HighWaterMark

  // ----- the list of chunks

  function Flat(buffer: seq<Bytes>): Bytes {
    if buffer == [] then [] else buffer[0] + Flat(buffer[1..])
  }

  predicate NoEmpty(buffer: seq<Bytes>) {
    forall i :: 0 <= i < |buffer| ==> buffer[i] != []
  }

  lemma {:induction false} FlatLast(buffer: seq<Bytes>, d: Bytes)
    ensures Flat(buffer + [d]) == Flat(buffer) + d
  {
    if buffer == [] {
      assert buffer + [d] == [d];
      assert Flat([d]) == d + Flat([]);
    } else {
      assert (buffer + [d])[1..] == buffer[1..] + [d];
      FlatLast(buffer[1..], d);
      assert buffer[0] + (Flat(buffer[1..]) + d) == (buffer[0] + Flat(buffer[1..])) + d;
    }
  }

  lemma FlatFirst(d: Bytes, buffer: seq<Bytes>)
    ensures Flat([d] + buffer) == d + Flat(buffer)
  {
    assert ([d] + buffer)[1..] == buffer;
  }

  /** Moving on past a whole chunk, or past the first bytes of one. */
  lemma PastChunk(taken: Bytes, buffer: seq<Bytes>, p: nat)
    requires p < |buffer|
    ensures Flat(buffer[p..]) == buffer[p] + Flat(buffer[p + 1..])
    ensures taken + Flat(buffer[p..]) == (taken + buffer[p]) + Flat(buffer[p + 1..])
  {
    assert buffer[p..][1..] == buffer[p + 1..];
    Regroup(taken, buffer[p], Flat(buffer[p + 1..]));
  }

  lemma PastBytes(taken: Bytes, data: Bytes, rest: seq<Bytes>, n: nat)
    requires n < |data|
    ensures taken + (data + Flat(rest)) == (taken + data[..n]) + Flat([data[n..]] + rest)
  {
    FlatFirst(data[n..], rest);
    Regroup(data[..n], data[n..], Flat(rest));
    assert data == data[..n] + data[n..];
    Regroup(taken, data[..n], data[n..] + Flat(rest));
  }

  /** Takes the first n bytes off the list, splitting the chunk that holds the last of them. */
  method Consume(buffer: seq<Bytes>, n: nat) returns (taken: Bytes, rest: seq<Bytes>)
    requires n < |Flat(buffer)| && NoEmpty(buffer)
    ensures |taken| == n && taken + Flat(rest) == Flat(buffer)
    ensures NoEmpty(rest)
  {
    taken := [];
    var left, p := n, 0;
    assert buffer[0..] == buffer;
    while left > |buffer[p]|
      invariant 0 <= p < |buffer|
      invariant |taken| + left == n && 0 <= left < |Flat(buffer[p..])|
      invariant taken + Flat(buffer[p..]) == Flat(buffer)
    {
      PastChunk(taken, buffer, p);
      taken := taken + buffer[p];
      left := left - |buffer[p]|;
      p := p + 1;
    }
    PastChunk(taken, buffer, p);
    if left == |buffer[p]| {
      taken := taken + buffer[p];
      rest := buffer[p + 1..];
    } else {
      PastBytes(taken, buffer[p], buffer[p + 1..], left);
      taken := taken + buffer[p][..left];
      rest := [buffer[p][left..]] + buffer[p + 1..];
    }
  }

  /** All chunks, one after the other. */
  method Concat(buffer: seq<Bytes>) returns (all: Bytes)
    ensures all == Flat(buffer)
  {
    all := [];
    var p := 0;
    assert buffer[0..] == buffer;
    while p < |buffer|
      invariant 0 <= p <= |buffer|
      invariant all + Flat(buffer[p..]) == Flat(buffer)
    {
      PastChunk(all, buffer, p);
      all := all + buffer[p];
      p := p + 1;
    }
  }

  // ----- what callers pass in

  datatype Chunk = Null | Invalid | Carries(data: Bytes)

  datatype Op = Op(chunk: Chunk, addToFront: bool)

  /** What one call of _read does before it returns. */
  datatype Script = Script(ops: seq<Op>, throws: bool)

  datatype Outcome = Threw | NoData | Returned(data: Bytes)

  function First(buffer: seq<Bytes>): nat {
    if buffer == [] then 0 else |buffer[0]|
  }

  /** How many bytes read(n) takes; None stands for read() without a size. */
  function HowMuchToRead(n: Option<int>, length: nat, ended: bool, flowing: bool, first: nat): nat {
    if (n.Some? && n.value <= 0) || (length == 0 && ended) then 0
    else if n.None? then if flowing && length > 0 then first else length
    else if n.value <= length then n.value
    else if ended then length else 0
  }

  function Entry(d: Bytes, addToFront: bool): Event {
    if addToFront then Unshifted(d) else Pushed(d)
  }

  function Stored(buffer: seq<Bytes>, d: Bytes, addToFront: bool): seq<Bytes> {
    if addToFront then [d] + buffer else buffer + [d]
  }

  // ----- what the state says about the past

  /** The log replays, to a pipe that holds exactly what the buffer holds. */
  ghost predicate Tells(p: Past, buffer: seq<Bytes>, ended: bool, over: bool, asked: bool) {
    && Now(p).Some?
    && var i := Now(p).value;
    && i.pending == Flat(buffer) && i.ended == ended && i.over == over && i.asked == asked
  }

  ghost predicate Measured(buffer: seq<Bytes>, length: nat) {
    length == |Flat(buffer)| && NoEmpty(buffer)
  }

  function Given(p: Past): Bytes {
    if Now(p).Some? then Now(p).value.given else []
  }

  lemma TellPush(p: Past, buffer: seq<Bytes>, over: bool, asked: bool, d: Bytes)
    requires Tells(p, buffer, false, over, asked) && d != []
    ensures Tells(Then(p, Pushed(d)), buffer + [d], false, over, false)
    ensures Given(Then(p, Pushed(d))) == Given(p)
  {
    FlatLast(buffer, d);
  }

  lemma TellUnshift(p: Past, buffer: seq<Bytes>, ended: bool, asked: bool, d: Bytes)
    requires Tells(p, buffer, ended, false, asked) && d != []
    ensures Tells(Then(p, Unshifted(d)), [d] + buffer, ended, false, asked)
    ensures Given(Then(p, Unshifted(d))) == Given(p)
  {
    FlatFirst(d, buffer);
  }

  lemma TellData(p: Past, buffer: seq<Bytes>, ended: bool, over: bool, asked: bool, d: Bytes, rest: seq<Bytes>)
    requires Tells(p, buffer, ended, over, asked) && d != [] && d + Flat(rest) == Flat(buffer)
    ensures Tells(Then(p, Data(d)), rest, ended, over, asked)
    ensures Given(Then(p, Data(d))) == Given(p) + d
  {
    assert Flat(buffer)[|d|..] == Flat(rest);
  }

  lemma TellOther(p: Past, buffer: seq<Bytes>, ended: bool, over: bool, asked: bool)
    requires Tells(p, buffer, ended, over, asked)
    ensures Tells(Then(p, Nothing), buffer, ended, over, false) && Given(Then(p, Nothing)) == Given(p)
    ensures !ended ==> Tells(Then(p, Ended), buffer, true, over, false) && Given(Then(p, Ended)) == Given(p)
    ensures !ended && !asked ==> Tells(Then(p, Asked), buffer, ended, over, true) && Given(Then(p, Asked)) == Given(p)
    ensures ended && !over && Flat(buffer) == [] ==>
              Tells(Then(p, EndEmitted), buffer, ended, true, asked) && Given(Then(p, EndEmitted)) == Given(p)
  {}

  lemma TellEntry(p: Past, buffer: seq<Bytes>, ended: bool, over: bool, asked: bool, d: Bytes, addToFront: bool)
    requires Tells(p, buffer, ended, over, asked) && d != []
    requires if addToFront then !over else !ended
    ensures Tells(Then(p, Entry(d, addToFront)), Stored(buffer, d, addToFront), ended, over, addToFront && asked)
    ensures Given(Then(p, Entry(d, addToFront))) == Given(p)
  {
    if addToFront {
      TellUnshift(p, buffer, ended, asked, d);
    } else {
      TellPush(p, buffer, over, asked, d);
    }
  }

  lemma TellDirect(p: Past, buffer: seq<Bytes>, ended: bool, over: bool, asked: bool, d: Bytes, addToFront: bool)
    requires Tells(p, buffer, ended, over, asked) && d != [] && Flat(buffer) == []
    requires if addToFront then !over else !ended
    ensures var q := Then(Then(p, Entry(d, addToFront)), Data(d));
            Tells(q, buffer, ended, over, addToFront && asked) && Given(q) == Given(p) + d
  {
    TellEntry(p, buffer, ended, over, asked, d, addToFront);
    FlatFirst(d, buffer);
    FlatLast(buffer, d);
    TellData(Then(p, Entry(d, addToFront)), Stored(buffer, d, addToFront), ended, over, addToFront && asked, d, buffer);
  }

  lemma MeasuredMore(buffer: seq<Bytes>, length: nat, d: Bytes, addToFront: bool)
    requires Measured(buffer, length) && d != []
    ensures Measured(Stored(buffer, d, addToFront), length + |d|)
  {
    FlatLast(buffer, d);
    FlatFirst(d, buffer);
  }

  // ----- the part of the state that holds data

  /** The data side of `_readableState`, with the log of how it came about. */
  datatype Pipe = Pipe(buffer: seq<Bytes>, length: nat, ended: bool, endEmitted: bool, reading: bool, past: Past)

  const Empty := Pipe([], 0, false, false, false, Nil)

  ghost predicate Faithful(p: Pipe) {
    Tells(p.past, p.buffer, p.ended, p.endEmitted, p.reading) && Measured(p.buffer, p.length)
  }

  /** A chunk is put into the list. A push answers _read, an unshift does not. */
  function Keeping(p: Pipe, d: Bytes, addToFront: bool): Pipe {
    Pipe(Stored(p.buffer, d, addToFront), p.length + |d|, p.ended, p.endEmitted, addToFront && p.reading,
         Then(p.past, Entry(d, addToFront)))
  }

  /** A chunk goes straight to the consumer. */
  function Passing(p: Pipe, d: Bytes, addToFront: bool): Pipe {
    p.(reading := addToFront && p.reading, past := Then(Then(p.past, Entry(d, addToFront)), Data(d)))
  }

  function Idling(p: Pipe): Pipe {
    p.(reading := false, past := Then(p.past, Nothing))
  }

  function Closing(p: Pipe): Pipe {
    p.(reading := false, ended := true, past := Then(p.past, Ended))
  }

  function Asking(p: Pipe): Pipe {
    p.(reading := true, past := Then(p.past, Asked))
  }

  function Giving(p: Pipe, d: Bytes, rest: seq<Bytes>): Pipe
    requires |d| <= p.length
  {
    p.(buffer := rest, length := p.length - |d|, past := Then(p.past, Data(d)))
  }

  function Finishing(p: Pipe): Pipe {
    p.(endEmitted := true, past := Then(p.past, EndEmitted))
  }

  predicate Open(p: Pipe, addToFront: bool) {
    if addToFront then !p.endEmitted else !p.ended
  }

  lemma KeepingFaithful(p: Pipe, d: Bytes, addToFront: bool)
    requires Faithful(p) && d != [] && Open(p, addToFront)
    ensures Faithful(Keeping(p, d, addToFront)) && Given(Keeping(p, d, addToFront).past) == Given(p.past)
  {
    TellEntry(p.past, p.buffer, p.ended, p.endEmitted, p.reading, d, addToFront);
    MeasuredMore(p.buffer, p.length, d, addToFront);
  }

  lemma PassingFaithful(p: Pipe, d: Bytes, addToFront: bool)
    requires Faithful(p) && d != [] && p.length == 0 && Open(p, addToFront)
    ensures Faithful(Passing(p, d, addToFront)) && Given(Passing(p, d, addToFront).past) == Given(p.past) + d
  {
    TellDirect(p.past, p.buffer, p.ended, p.endEmitted, p.reading, d, addToFront);
  }

  lemma OtherFaithful(p: Pipe)
    requires Faithful(p)
    ensures Faithful(Idling(p)) && Given(Idling(p).past) == Given(p.past)
    ensures !p.ended ==> Faithful(Closing(p)) && Given(Closing(p).past) == Given(p.past)
    ensures !p.ended && !p.reading ==> Faithful(Asking(p)) && Given(Asking(p).past) == Given(p.past)
    ensures p.ended && !p.endEmitted && p.length == 0 ==> Faithful(Finishing(p)) && Given(Finishing(p).past) == Given(p.past)
  {
    TellOther(p.past, p.buffer, p.ended, p.endEmitted, p.reading);
  }

  lemma GivingFaithful(p: Pipe, d: Bytes, rest: seq<Bytes>)
    requires Faithful(p) && d != [] && d + Flat(rest) == Flat(p.buffer) && NoEmpty(rest)
    ensures |d| <= p.length && Faithful(Giving(p, d, rest)) && Given(Giving(p, d, rest).past) == Given(p.past) + d
  {
    TellData(p.past, p.buffer, p.ended, p.endEmitted, p.reading, d, rest);
  }

  /** Taking bytes out: the first n of the list, or all of it. */
  method TakeOut(p: Pipe, n: nat) returns (d: Bytes, q: Pipe)
    requires Faithful(p) && 0 < n <= p.length
    ensures |d| == n && d + Flat(q.buffer) == Flat(p.buffer)
    ensures Faithful(q) && q == Giving(p, d, q.buffer) && Given(q.past) == Given(p.past) + d
  {
    var rest := [];
    if n >= p.length {
      d := Concat(p.buffer);
    } else {
      d, rest := Consume(p.buffer, n);
    }
    GivingFaithful(p, d, rest);
    q := Giving(p, d, rest);
  }

  // ----- the stream

  /** `readingMore` holds exactly while one prefetch is scheduled or running. */
  predicate Scheduled(moreTicks: nat, readingMore: bool, prefetching: bool) {
    moreTicks == (if readingMore && !prefetching then 1 else 0) && (prefetching ==> readingMore)
  }

  /** Nobody is asked, nobody is going to ask, and nothing forbids it, though there is room. */
  predicate Idle(p: Pipe, highWaterMark: nat, readingMore: bool, failed: bool) {
    !p.reading && !readingMore && !p.ended && !failed && p.length < highWaterMark
  }

  /** The source is idle only before anything has happened, or when a prefetch stalled. */
  predicate Fed(p: Pipe, highWaterMark: nat, readingMore: bool, failed: bool, stalled: bool) {
    && (Idle(p, highWaterMark, readingMore, failed) ==> p.past.Nil? || stalled)
    && (stalled ==> Idle(p, highWaterMark, readingMore, false))
  }

  /** Nothing is forgotten. */
  predicate Since(p: Past, q: Past) {
    p == q || (q.Then? && Since(p, q.before))
  }

  lemma {:induction false} SinceSince(p: Past, q: Past, r: Past)
    requires Since(p, q) && Since(q, r)
    ensures Since(p, r)
  {
    if q != r { SinceSince(p, q, r.before); }
  }

  /** What a push or an unshift makes of the data: it is taken, passed on, or refused. */
  ghost predicate Takes(p: Pipe, q: Pipe, chunk: Chunk, addToFront: bool, sync: bool, flowing: bool, direct: bool,
                  failed: bool) {
    match chunk
    case Invalid => q == p
    case Null =>
      if p.ended then q == Idling(p) else if sync || !flowing then q == Closing(p) else Drained(Closing(p), q)
    case Carries(d) =>
      if d == [] then q == if addToFront then p else Idling(p)
      else if failed || !Open(p, addToFront) then q == p
      else if direct then q == Passing(p, d, addToFront)
      else q == Keeping(p, d, addToFront)
  }

  /** After a failure, chunks are dropped without a word. */
  predicate Dropped(p: Pipe, chunk: Chunk, addToFront: bool, failed: bool) {
    chunk.Carries? && chunk.data != [] && Open(p, addToFront) && failed
  }

  /** Everything that was held has been handed out, in order, and nothing else has happened. */
  ghost predicate Drained(p: Pipe, q: Pipe) {
    && q.ended && q.length == 0 && Since(p.past, q.past) && q.endEmitted == p.endEmitted
    && Given(q.past) == Given(p.past) + Flat(p.buffer)
  }

  /** A read hands out the first `count` bytes that are held, or nothing. */
  ghost predicate Hands(p: Pipe, q: Pipe, r: Outcome, count: nat) {
    if count == 0 then r == NoData && q == p
    else
      && r.Returned? && |r.data| == count <= p.length && r.data + Flat(q.buffer) == Flat(p.buffer)
      && q == Giving(p, r.data, q.buffer) && Given(q.past) == Given(p.past) + r.data
  }

  // ----- answers that bring nothing

  /** No operation brings a byte, ends the source or fails. */
  predicate Quiet(ops: seq<Op>) {
    forall i :: 0 <= i < |ops| ==> ops[i].chunk == Carries([])
  }

  predicate SomePush(ops: seq<Op>) {
    exists i :: 0 <= i < |ops| && !ops[i].addToFront
  }

  /** An answer, but an empty one: nothing but empty chunks, and at least one of them pushed. */
  predicate Stalls(s: Script) {
    !s.throws && Quiet(s.ops) && SomePush(s.ops)
  }

  /** From p, which was asked, to q: nothing has come exactly if the operations were quiet. */
  predicate Silence(p: Pipe, q: Pipe, failed: bool, quiet: bool, pushed: bool) {
    && p.length <= q.length
    && (quiet <==> q.length == p.length && !q.ended && !failed)
    && (quiet ==> (q.reading <==> !pushed))
  }

  /** What makes a push or an unshift an error. */
  predicate Fails(p: Pipe, chunk: Chunk, addToFront: bool) {
    chunk.Invalid? || (chunk.Carries? && chunk.data != [] && !Open(p, addToFront))
  }

  // ----- what _read brings before it returns

  datatype Reply = Reply(pipe: Pipe, failed: bool)

  /** A push or an unshift from within _read. */
  function Taken(p: Pipe, chunk: Chunk, addToFront: bool, failed: bool): Pipe {
    match chunk
    case Invalid => p
    case Null => if p.ended then Idling(p) else Closing(p)
    case Carries(d) =>
      if d == [] then if addToFront then p else Idling(p)
      else if failed || !Open(p, addToFront) then p else Keeping(p, d, addToFront)
  }

  function Answered(p: Pipe, ops: seq<Op>): Reply {
    if ops == [] then Reply(p, false)
    else
      var n := |ops| - 1;
      AnsweredBy(Answered(p, ops[..n]), ops[n])
  }

  function AnsweredBy(r: Reply, op: Op): Reply {
    Reply(Taken(r.pipe, op.chunk, op.addToFront, r.failed), r.failed || Fails(r.pipe, op.chunk, op.addToFront))
  }

  function Consulted(p: Pipe, s: Script): Reply {
    var r := Answered(Asking(p), s.ops);
    Reply(r.pipe, r.failed || s.throws)
  }

  /** One operation more. */
  lemma AnsweredMore(p: Pipe, r: Reply, q: Pipe, ops: seq<Op>, i: nat, flowing: bool)
    requires i < |ops| && r == Answered(p, ops[..i])
    requires Takes(r.pipe, q, ops[i].chunk, ops[i].addToFront, true, flowing, false, r.failed)
    ensures Reply(q, r.failed || Fails(r.pipe, ops[i].chunk, ops[i].addToFront)) == Answered(p, ops[..i + 1])
  {
    assert ops[..i + 1][..i] == ops[..i];
  }

  /** Before anything is handed out: nothing comes in, or what _read answers with. */
  predicate Consults(asked: bool, p: Pipe, q: Pipe, s: Script, wasFailed: bool, failed: bool) {
    if asked then !p.reading && !p.ended && !wasFailed && Reply(q, failed) == Consulted(p, s)
    else q == p && failed == wasFailed
  }

  /** When _read must be called, unless an answer is pending. */
  predicate Pressing(p: Pipe, n: Option<int>, flowing: bool, mark: nat) {
    !p.ended && (p.length == 0 || p.length - HowMuchToRead(n, p.length, false, flowing, First(p.buffer)) < mark)
  }

  /** What is handed out: recomputed when an answer has come. */
  function ToTake(p: Pipe, mid: Pipe, n: Option<int>, flowing: bool): nat {
    var on := if mid.reading then p else mid;
    HowMuchToRead(n, on.length, on.ended, flowing, First(on.buffer))
  }

  /** A whole read: what comes in, and then what goes out. */
  ghost predicate ReadsBy(asked: bool, p: Pipe, q: Pipe, n: Option<int>, s: Script, flowing: bool, mark: nat,
                          wasFailed: bool, failed: bool, r: Outcome) {
    var mid := if asked then Consulted(p, s).pipe else p;
    && Consults(asked, p, mid, s, wasFailed, failed)
    && (Pressing(p, n, flowing, mark) ==> asked || p.reading || wasFailed)
    && Hands(mid, q, r, ToTake(p, mid, n, flowing))
  }

  /** Data may come in, but nothing is given out. */
  ghost predicate Comes(p: Pipe, q: Pipe) {
    && p.length <= q.length && Since(p.past, q.past) && Given(q.past) == Given(p.past) && q.endEmitted == p.endEmitted
  }

  lemma TakenComes(p: Pipe, chunk: Chunk, addToFront: bool, failed: bool)
    requires Faithful(p)
    ensures Faithful(Taken(p, chunk, addToFront, failed)) && Comes(p, Taken(p, chunk, addToFront, failed))
  {
    OtherFaithful(p);
    if chunk.Carries? && chunk.data != [] && !failed && Open(p, addToFront) {
      KeepingFaithful(p, chunk.data, addToFront);
    }
  }

  lemma SilenceOn(p: Pipe, q: Pipe, failed: bool, chunk: Chunk, addToFront: bool, quiet: bool, pushed: bool)
    requires Silence(p, q, failed, quiet, pushed)
    ensures Silence(p, Taken(q, chunk, addToFront, failed), failed || Fails(q, chunk, addToFront),
                    quiet && chunk == Carries([]), pushed || !addToFront)
  {}

  lemma LastOp(ops: seq<Op>)
    requires ops != []
    ensures var n := |ops| - 1;
            && (Quiet(ops) <==> Quiet(ops[..n]) && ops[n].chunk == Carries([]))
            && (SomePush(ops) <==> SomePush(ops[..n]) || !ops[n].addToFront)
  {
    var n := |ops| - 1;
    if SomePush(ops) && ops[n].addToFront {
      var k :| 0 <= k < |ops| && !ops[k].addToFront;
      assert !ops[..n][k].addToFront;
    }
    if Quiet(ops[..n]) && ops[n].chunk == Carries([]) {
      forall k | 0 <= k < |ops| ensures ops[k].chunk == Carries([]) {
        if k < n { assert ops[..n][k] == ops[k]; }
      }
    }
  }

  /** What _read brings: bytes that stay, and nothing exactly if it is quiet. */
  lemma {:induction false} AnsweredComes(p: Pipe, ops: seq<Op>)
    requires Faithful(p) && p.reading && !p.ended
    ensures Faithful(Answered(p, ops).pipe) && Comes(p, Answered(p, ops).pipe)
    ensures Silence(p, Answered(p, ops).pipe, Answered(p, ops).failed, Quiet(ops), SomePush(ops))
  {
    if ops != [] {
      var n := |ops| - 1;
      var r := Answered(p, ops[..n]);
      AnsweredComes(p, ops[..n]);
      LastOp(ops);
      TakenComes(r.pipe, ops[n].chunk, ops[n].addToFront, r.failed);
      SilenceOn(p, r.pipe, r.failed, ops[n].chunk, ops[n].addToFront, Quiet(ops[..n]), SomePush(ops[..n]));
      SinceSince(p.past, r.pipe.past, Answered(p, ops).pipe.past);
    }
  }

  lemma ConsultedComes(p: Pipe, s: Script)
    requires Faithful(p) && !p.reading && !p.ended
    ensures Faithful(Consulted(p, s).pipe) && Comes(p, Consulted(p, s).pipe)
    ensures Silence(p, Consulted(p, s).pipe, Consulted(p, s).failed, !s.throws && Quiet(s.ops), SomePush(s.ops))
  {
    OtherFaithful(p);
    AnsweredComes(Asking(p), s.ops);
    SinceSince(p.past, Asking(p).past, Consulted(p, s).pipe.past);
  }

  /** What read(0) with room left does: it asks, unless an answer is pending or the stream has failed. */
  predicate Probes(p: Pipe, q: Pipe, s: Script, wasFailed: bool, failed: bool) {
    if p.reading || wasFailed then q == p && failed == wasFailed
    else Silence(p, q, failed, !s.throws && Quiet(s.ops), SomePush(s.ops))
  }

  function Handed(r: Outcome): Bytes {
    if r.Returned? then r.data else []
  }

  /** Whatever else happens, a read gives out what it returns and no more. */
  ghost predicate Reads(p: Pipe, q: Pipe, n: Option<int>, r: Outcome) {
    && Since(p.past, q.past) && q.endEmitted == p.endEmitted
    && Given(q.past) == Given(p.past) + Handed(r)
    && (r.Returned? ==> r.data != [] && q.past == Then(q.past.before, Data(r.data)))
    && (n.Some? && n.value <= 0 ==> r == NoData && p.length <= q.length)
    && (n.Some? && 0 < n.value <= p.length && !r.Threw? ==> r.Returned? && |r.data| == n.value)
  }

  /** The bytes that a read returns, when nothing is pushed meanwhile. */
  ghost predicate HandsBytes(p: Pipe, q: Pipe, r: Outcome, count: nat) {
    |Handed(r)| == count && Handed(r) + Flat(q.buffer) == Flat(p.buffer)
  }

  lemma HandsReads(p: Pipe, q: Pipe, q': Pipe, n: Option<int>, take: nat, r: Outcome)
    requires Comes(p, q) && Hands(q, q', r, take)
    requires n.Some? && n.value <= 0 ==> take == 0
    requires n.Some? && 0 < n.value <= p.length ==> take == n.value
    ensures Reads(p, q', n, r)
    ensures q.buffer == p.buffer ==> HandsBytes(p, q', r, take)
  {}

  /** What a read comes to: it gives out what it returns, exactly as much as was asked for if nothing comes in. */
  lemma ReadsByIs(asked: bool, p: Pipe, q: Pipe, n: Option<int>, s: Script, flowing: bool, mark: nat,
                  wasFailed: bool, failed: bool, r: Outcome)
    requires Faithful(p) && ReadsBy(asked, p, q, n, s, flowing, mark, wasFailed, failed, r)
    ensures Reads(p, q, n, r)
    ensures s.ops == [] || p.ended ==>
              HandsBytes(p, q, r, HowMuchToRead(n, p.length, p.ended, flowing, First(p.buffer)))
    ensures n == Some(0) && !p.ended && (p.length == 0 || p.length < mark) ==> Probes(p, q, s, wasFailed, failed)
  {
    if asked { ConsultedComes(p, s); }
    var mid := if asked then Consulted(p, s).pipe else p;
    HandsReads(p, mid, q, n, ToTake(p, mid, n, flowing), r);
  }

  /** On the way to `Drained`. */
  ghost predicate Draining(p: Pipe, q: Pipe) {
    && q.ended && Since(p.past, q.past) && q.endEmitted == p.endEmitted
    && Given(q.past) + Flat(q.buffer) == Given(p.past) + Flat(p.buffer)
  }

  lemma DrainsOn(p: Pipe, q: Pipe, q': Pipe, r: Outcome, count: nat)
    requires Draining(p, q) && Reads(q, q', None, r) && HandsBytes(q, q', r, count) && q'.ended
    ensures Draining(p, q')
  {
    SinceSince(p.past, q.past, q'.past);
    Regroup(Given(q.past), Handed(r), Flat(q'.buffer));
  }

  lemma FirstBound(buffer: seq<Bytes>)
    requires NoEmpty(buffer)
    ensures First(buffer) <= |Flat(buffer)| && (First(buffer) == 0 <==> Flat(buffer) == [])
  {}

  lemma TakesSince(p: Pipe, q: Pipe, chunk: Chunk, addToFront: bool, sync: bool, flowing: bool, direct: bool, failed: bool)
    requires Takes(p, q, chunk, addToFront, sync, flowing, direct, failed)
    ensures Since(p.past, q.past)
  {
    if chunk.Null? && !p.ended { SinceSince(p.past, Closing(p).past, q.past); }
  }

  lemma {:induction false} SincePrefix(p: Past, q: Past)
    requires Since(p, q)
    ensures Events(p) <= Events(q)
  {
    if p != q { SincePrefix(p, q.before); }
  }

  lemma {:induction false} OverIsEnded(p: Past)
    requires Now(p).Some?
    ensures Now(p).value.over ==> Now(p).value.ended
  {
    if p.Then? { OverIsEnded(p.before); }
  }

  /** What the log of a stream shows. */
  ghost predicate Lawful(p: Pipe) {
    var log := Events(p.past);
    && p.length == |Flat(p.buffer)|
    && Delivered(log) + Flat(p.buffer) == Accepted(log)
    && (forall i :: 0 <= i < |log| && log[i] == EndEmitted ==> EndsAt(log, i))
    && (forall i, j :: 0 <= i < j < |log| && log[i] == log[j] == Asked ==> !Silent(log, i, j))
  }

  lemma FaithfulLawful(p: Pipe)
    requires Faithful(p)
    ensures Lawful(p) && Delivered(Events(p.past)) == Given(p.past)
  {
    var log := Events(p.past);
    NowReplays(p.past);
    Conservation(log);
    forall i | 0 <= i < |log| && log[i] == EndEmitted ensures EndsAt(log, i) { EndIsFinal(log, i); }
    forall i, j | 0 <= i < j < |log| && log[i] == log[j] == Asked ensures !Silent(log, i, j) { OneReadAtATime(log, i, j); }
  }

  lemma Completed(p: Pipe, q: Pipe)
    requires Faithful(p) && !p.ended && Drained(Closing(p), q) && Faithful(q) && Faithful(Finishing(q))
    ensures Lawful(Finishing(q))
    ensures var log := Events(Finishing(q).past);
            Delivered(log) == Accepted(log) == Accepted(Events(p.past))
  {
    OtherFaithful(p);
    FaithfulLawful(p);
    FaithfulLawful(Finishing(q));
    NowReplays(p.past);
    Conservation(Events(p.past));
    assert Given(Finishing(q).past) == Given(q.past);
  }

  // ----- runs

  datatype Flags = Flags(sync: bool, flowing: bool, listened: bool, failed: bool, closed: bool, more: bool, ends: bool)

  /** What the data of a stream depend on; `more` and `ends` say what is scheduled. */
  datatype View = View(pipe: Pipe, mark: nat, flags: Flags)

  /** A chunk goes to the consumer at once. */
  predicate Straight(p: Pipe, sync: bool, flowing: bool, listened: bool) {
    flowing && p.length == 0 && !sync && listened
  }

  /** What only changes from outside, and what is not taken back. */
  predicate Steady(f: Flags, g: Flags) {
    g.flowing == f.flowing && g.listened == f.listened && g.closed == f.closed && (f.more ==> g.more) && (f.ends ==> g.ends)
  }

  ghost predicate OnePush(chunk: Chunk, addToFront: bool, v: View, w: View) {
    && Takes(v.pipe, w.pipe, chunk, addToFront, v.flags.sync, v.flags.flowing,
             Straight(v.pipe, v.flags.sync, v.flags.flowing, v.flags.listened), v.flags.failed)
    && w.mark == v.mark && Steady(v.flags, w.flags) && w.flags.sync == v.flags.sync
    && (w.flags.failed <==> v.flags.failed || Fails(v.pipe, chunk, addToFront))
    && (w.pipe == v.pipe || w.flags.more || w.pipe.ended)
    && (chunk.Null? && !v.pipe.ended && !v.flags.sync && v.flags.flowing ==> w.pipe.endEmitted || w.flags.ends)
  }

  predicate TooLarge(n: Option<int>, mark: nat) {
    n.Some? && n.value > mark && n.value > MaxHighWaterMark
  }

  function Raised(n: Option<int>, mark: nat): nat {
    if n.Some? && n.value > mark then NewHighWaterMark(n.value) else mark
  }

  /** One read() of a size that is not too large, with or without a call of _read. */
  ghost predicate Reading(n: Option<int>, s: Script, r: Outcome, asked: bool, v: View, w: View) {
    && ReadsBy(asked, v.pipe, w.pipe, n, s, v.flags.flowing, v.mark, v.flags.failed, w.flags.failed, r)
    && w.mark == v.mark && Steady(v.flags, w.flags) && w.flags.sync == (v.flags.sync && !asked)
    && (r == NoData && w.pipe.ended && w.pipe.length == 0 && (n != Some(0) || v.pipe.ended) ==>
          w.pipe.endEmitted || w.flags.ends)
  }

  ghost predicate OneRead(n: Option<int>, s: Script, r: Outcome, asked: bool, v: View, w: View) {
    if TooLarge(n, v.mark) then r == Threw && w == v
    else Reading(n, s, r, asked, v.(mark := Raised(n, v.mark)), w)
  }

  /** One read() after the other. */
  ghost predicate ReadsInTurn(n: Option<int>, scripts: seq<Script>, v: View, w: View)
    decreases |scripts|
  {
    if scripts == [] then w == v
    else
      var k := |scripts| - 1;
      exists mid, r, asked :: ReadsInTurn(n, scripts[..k], v, mid) && OneRead(n, scripts[k], r, asked, mid, w)
  }

  lemma OneMoreRead(n: Option<int>, scripts: seq<Script>, i: nat, v: View, mid: View, r: Outcome, asked: bool, w: View)
    requires i < |scripts| && ReadsInTurn(n, scripts[..i], v, mid) && OneRead(n, scripts[i], r, asked, mid, w)
    ensures ReadsInTurn(n, scripts[..i + 1], v, w)
  {
    hide OneRead;
    assert scripts[..i + 1][..i] == scripts[..i];
  }

  /** What a read comes to: it gives out what it returns, exactly as much as was asked for if nothing comes in. */
  lemma OneReadIs(n: Option<int>, s: Script, r: Outcome, asked: bool, v: View, w: View)
    requires Faithful(v.pipe) && OneRead(n, s, r, asked, v, w)
    ensures Reads(v.pipe, w.pipe, n, r)
    ensures (s.ops == [] || v.pipe.ended) && !r.Threw? ==>
              HandsBytes(v.pipe, w.pipe, r,
                         HowMuchToRead(n, v.pipe.length, v.pipe.ended, v.flags.flowing, First(v.pipe.buffer)))
    ensures n == Some(0) && !v.pipe.ended && (v.pipe.length == 0 || v.pipe.length < v.mark) ==>
              Probes(v.pipe, w.pipe, s, v.flags.failed, w.flags.failed)
  {
    if TooLarge(n, v.mark) {
      assert Given(v.pipe.past) == Given(v.pipe.past) + Handed(r);
    } else {
      ReadsByIs(asked, v.pipe, w.pipe, n, s, v.flags.flowing, Raised(n, v.mark), v.flags.failed, w.flags.failed, r);
    }
  }

  /** A size above the high-water mark raises it, and is refused beyond 1 GiB; no other read does either. */
  lemma ReadRaises(n: Option<int>, s: Script, r: Outcome, asked: bool, v: View, w: View)
    requires OneRead(n, s, r, asked, v, w)
    ensures r.Threw? <==> n.Some? && n.value > v.mark && n.value > 0x4000_0000
    ensures r.Threw? ==> w == v
    ensures !r.Threw? ==> w.mark == if n.Some? && n.value > v.mark then NewHighWaterMark(n.value) else v.mark
  {}

  /** What is held when it is decided how much to hand out. */
  function Held(asked: bool, p: Pipe, s: Script): Pipe {
    if asked then Consulted(p, s).pipe else p
  }

  /** Without an answer nothing has come in. */
  lemma HeldStill(asked: bool, p: Pipe, s: Script)
    ensures !asked || s.ops == [] ==> Held(asked, p, s).buffer == p.buffer && Held(asked, p, s).ended == p.ended
  {}

  /** How much a read gives out, and what it leaves, of what is held once _read has answered, or has not. */
  lemma ReadAmounts(n: Option<int>, s: Script, r: Outcome, asked: bool, v: View, w: View)
    requires Faithful(v.pipe) && OneRead(n, s, r, asked, v, w) && !r.Threw?
    requires !asked || s.ops == [] || !Held(asked, v.pipe, s).reading
    ensures var held, bytes := Held(asked, v.pipe, s), Flat(Held(asked, v.pipe, s).buffer);
            && Handed(r) + Flat(w.pipe.buffer) == bytes
            && (n.None? && !v.flags.flowing ==> Handed(r) == bytes && Flat(w.pipe.buffer) == [])
            && (n.None? && v.flags.flowing ==> Handed(r) == if held.buffer == [] then [] else held.buffer[0])
            && (n.Some? && n.value > |bytes| ==> Handed(r) == if held.ended then bytes else [])
            && (n.Some? && 0 < n.value <= |bytes| ==> Handed(r) == bytes[..n.value])
            && (n.Some? && n.value <= 0 ==> Handed(r) == [])
  {
    var held := Held(asked, v.pipe, s);
    if asked { ConsultedComes(v.pipe, s); }
    FirstBound(held.buffer);
    AmountTaken(n, s, r, asked, v, w);
    var bytes := Flat(held.buffer);
    assert Handed(r) == bytes[..|Handed(r)|];
    if n.None? && v.flags.flowing && held.buffer != [] { assert bytes[..|held.buffer[0]|] == held.buffer[0]; }
    assert bytes[..|bytes|] == bytes;
  }

  lemma AmountTaken(n: Option<int>, s: Script, r: Outcome, asked: bool, v: View, w: View)
    requires Faithful(v.pipe) && OneRead(n, s, r, asked, v, w) && !r.Threw?
    requires !asked || s.ops == [] || !Held(asked, v.pipe, s).reading
    ensures var held := Held(asked, v.pipe, s);
            HandsBytes(held, w.pipe, r, HowMuchToRead(n, held.length, held.ended, v.flags.flowing, First(held.buffer)))
  {}

  /** What can happen to a stream. A tick that is not scheduled does nothing. */
  datatype Action =
    | Push(chunk: Chunk, addToFront: bool)
    | Read(n: Option<int>, script: Script)
    | TickReadable(scripts: seq<Script>)
    | TickMore(answers: nat -> Script)
    | TickEnd
    | Listen(flows: bool, listeners: nat, needs: bool)
    | Destroy(fails: bool, closes: bool)

  function AtLeastOne(n: nat): nat {
    if n > 0 then n else 1
  }

  /** Nobody is asked, and more is wanted. */
  predicate Lacks(v: View) {
    !v.pipe.reading && !v.pipe.ended && (v.pipe.length < v.mark || (v.flags.flowing && v.pipe.length == 0))
  }

  /** After some rounds of a prefetch, each of which brought something. */
  ghost predicate Going(v: View, w: View, rounds: nat, first: bool, last: bool) {
    && Comes(v.pipe, w.pipe) && v.pipe.length + rounds <= w.pipe.length
    && (rounds == 0 ==> w == v)
    && (rounds > 0 ==> v.pipe.length + rounds <= AtLeastOne(v.mark) && (v.flags.failed || !first) && (w.flags.failed || !last))
  }

  /** After a last round that brought nothing: `first` and `last` are whether the first and the last answer were empty. */
  ghost predicate Gone(v: View, w: View, rounds: nat, first: bool, last: bool) {
    && Comes(v.pipe, w.pipe) && v.pipe.length + rounds <= AtLeastOne(v.mark)
    && (!w.flags.failed ==> (last <==> !w.pipe.reading && !w.pipe.ended))
    && (!v.flags.failed && first ==> rounds == 1 && w.pipe.length == v.pipe.length && !w.flags.failed)
  }

  lemma GoesNowhere(v: View, first: bool)
    ensures Going(v, v, 0, first, false)
  {}

  /** One more round, when nobody was asked and there was room. */
  lemma GoesOn(v: View, w: View, w': View, rounds: nat, first: bool, last: bool, s: Script, dry: bool)
    requires Going(v, w, rounds, first, last) && Comes(w.pipe, w'.pipe) && (dry <==> w'.pipe.length == w.pipe.length)
    requires Lacks(w) && w.mark == v.mark && Probes(w.pipe, w'.pipe, s, w.flags.failed, w'.flags.failed)
    requires rounds == 0 ==> first == Stalls(s)
    ensures if dry then Gone(v, w', rounds + 1, first, Stalls(s)) else Going(v, w', rounds + 1, first, Stalls(s))
  {
    SinceSince(v.pipe.past, w.pipe.past, w'.pipe.past);
  }

  /**
   Some rounds of read(0), each made because more was wanted, and each but the last one bringing
   something; `dry` says that the last one brought nothing.
   */
  ghost predicate Prefetched(answers: nat -> Script, rounds: nat, dry: bool, v: View, w: View)
    decreases rounds
  {
    if rounds == 0 then w == v && !dry
    else
      var k := rounds - 1;
      exists mid :: Prefetched(answers, k, false, v, mid) && OneRound(answers(k), dry, mid, w)
  }

  ghost predicate OneRound(s: Script, dry: bool, v: View, w: View) {
    && Lacks(v) && Faithful(v.pipe) && (dry <==> w.pipe.length == v.pipe.length)
    && exists r, asked :: OneRead(Some(0), s, r, asked, v, w)
  }

  lemma OneRoundIs(s: Script, dry: bool, v: View, w: View)
    requires OneRound(s, dry, v, w)
    ensures Lacks(v) && (dry <==> w.pipe.length == v.pipe.length)
    ensures Comes(v.pipe, w.pipe) && w.mark == v.mark && Steady(v.flags, w.flags)
    ensures Probes(v.pipe, w.pipe, s, v.flags.failed, w.flags.failed)
  {
    var r, asked :| OneRead(Some(0), s, r, asked, v, w);
    OneReadIs(Some(0), s, r, asked, v, w);
  }

  lemma OneMoreRound(answers: nat -> Script, rounds: nat, v: View, mid: View, r: Outcome, asked: bool, w: View)
    requires Prefetched(answers, rounds, false, v, mid) && Lacks(mid) && Faithful(mid.pipe)
    requires OneRead(Some(0), answers(rounds), r, asked, mid, w)
    ensures Prefetched(answers, rounds + 1, w.pipe.length == mid.pipe.length, v, w)
    ensures mid.pipe.length <= w.pipe.length && w.mark == mid.mark
  {
    assert OneRound(answers(rounds), w.pipe.length == mid.pipe.length, mid, w);
    OneRoundIs(answers(rounds), w.pipe.length == mid.pipe.length, mid, w);
  }

  lemma {:induction false} PrefetchedIs(answers: nat -> Script, rounds: nat, dry: bool, v: View, w: View)
    requires Prefetched(answers, rounds, dry, v, w)
    ensures w.mark == v.mark && Steady(v.flags, w.flags) && (rounds > 0 ==> Lacks(v)) && (rounds == 0 ==> w == v && !dry)
    ensures var first, last := Stalls(answers(0)), rounds > 0 && Stalls(answers(rounds - 1));
            if dry then Gone(v, w, rounds, first, last) else Going(v, w, rounds, first, last)
    decreases rounds
  {
    hide OneRound, Going, Gone, Comes, Probes, Stalls, Lacks;
    if rounds == 0 {
      GoesNowhere(v, Stalls(answers(0)));
    } else {
      var k := rounds - 1;
      var mid :| Prefetched(answers, k, false, v, mid) && OneRound(answers(k), dry, mid, w);
      PrefetchedIs(answers, k, false, v, mid);
      OneRoundIs(answers(k), dry, mid, w);
      GoesOn(v, mid, w, k, Stalls(answers(0)), k > 0 && Stalls(answers(k - 1)), answers(k), dry);
    }
  }

  /** A whole prefetch: it stops when nothing comes or enough is there. */
  ghost predicate OnePrefetch(answers: nat -> Script, rounds: nat, dry: bool, v: View, w: View) {
    var mid := w.(flags := w.flags.(more := true));
    !w.flags.more && (dry || !Lacks(mid)) && Prefetched(answers, rounds, dry, v, mid)
  }

  /** A prefetch leaves the source idle exactly when its last answer is empty. */
  lemma PrefetchIdle(answers: nat -> Script, rounds: nat, dry: bool, v: View, w: View)
    requires OnePrefetch(answers, rounds, dry, v, w)
    ensures Comes(v.pipe, w.pipe) && w.mark == v.mark && (rounds == 0 <==> !Lacks(v))
    ensures rounds > 0 <==>
            !v.pipe.reading && !v.pipe.ended && (v.pipe.length < v.mark || (v.flags.flowing && v.pipe.length == 0))
    ensures rounds == 0 || v.pipe.length + rounds <= AtLeastOne(v.mark)
    ensures Idle(w.pipe, w.mark, false, w.flags.failed) <==>
            w.pipe.length < w.mark && rounds > 0 && !w.flags.failed && Stalls(answers(rounds - 1))
    ensures Lacks(v) && !v.flags.failed && Stalls(answers(0)) ==>
              rounds == 1 && w.pipe.length == v.pipe.length && !w.flags.failed
  {
    PrefetchedIs(answers, rounds, dry, v, w.(flags := w.flags.(more := true)));
  }

  /** What flowing does: some chunks are given out. */
  ghost predicate Flows(p: Pipe, q: Pipe, chunks: seq<Bytes>) {
    && Since(p.past, q.past) && q.endEmitted == p.endEmitted
    && Given(q.past) == Given(p.past) + Flat(chunks) && NoEmpty(chunks)
  }

  /** The 'readable' callback: one read() after the other as long as the stream flows and there is something. */
  ghost predicate Flowing(scripts: seq<Script>, turns: nat, chunks: seq<Bytes>, v: View, w: View) {
    && turns <= |scripts| && ReadsInTurn(None, scripts[..turns], v, w) && w.mark == v.mark && Steady(v.flags, w.flags)
    && Flows(v.pipe, w.pipe, chunks) && (!v.flags.flowing ==> turns == 0)
  }

  lemma FlowingOn(scripts: seq<Script>, turns: nat, chunks: seq<Bytes>, v: View, w: View, r: Outcome, asked: bool, w': View)
    requires turns < |scripts| && Flowing(scripts, turns, chunks, v, w) && v.flags.flowing && Faithful(w.pipe)
    requires OneRead(None, scripts[turns], r, asked, w, w')
    ensures Flowing(scripts, turns + 1, if r.Returned? then chunks + [r.data] else chunks, v, w')
  {
    OneReadIs(None, scripts[turns], r, asked, w, w');
    OneMoreRead(None, scripts, turns, v, w, r, asked, w');
    SinceSince(v.pipe.past, w.pipe.past, w'.pipe.past);
    if r.Returned? {
      FlatLast(chunks, r.data);
      Regroup(Given(v.pipe.past), Flat(chunks), r.data);
    }
  }

  ghost predicate OneFlow(scripts: seq<Script>, turns: nat, chunks: seq<Bytes>, v: View, w: View) {
    && Flowing(scripts, turns, chunks, v, w)
    && (v.flags.flowing ==> |chunks| == turns == |scripts| || |chunks| + 1 == turns)
  }

  /** 'end' comes if everything is handed out, unless the stream is closed or has failed. */
  ghost predicate OneEnd(v: View, w: View) {
    var ends := v.pipe.length == 0 && !v.pipe.endEmitted && !v.flags.closed;
    && w.mark == v.mark && w.flags == v.flags.(failed := w.flags.failed, ends := w.flags.ends)
    && (w.pipe == v.pipe || (ends && w.pipe == Finishing(v.pipe)))
    && (ends && !v.flags.failed ==> w.pipe == Finishing(v.pipe))
    && (v.flags.failed ==> w.flags.failed) && (w.flags.failed && !v.flags.failed ==> w.pipe.endEmitted)
  }

  /** What each action does, given the flags of the stream. */
  ghost predicate Happens(a: Action, v: View, w: View) {
    match a
    case Push(chunk, addToFront) => OnePush(chunk, addToFront, v, w)
    case Read(n, script) => exists r, asked :: OneRead(n, script, r, asked, v, w)
    case TickReadable(scripts) => exists turns, chunks :: OneFlow(scripts, turns, chunks, v, w)
    case TickMore(answers) => if v.flags.more then exists rounds, dry :: OnePrefetch(answers, rounds, dry, v, w) else w == v
    case TickEnd => if v.flags.ends then OneEnd(v, w) else w == v
    case Listen(flows, listeners, _) => w == v.(flags := v.flags.(flowing := flows, listened := listeners > 0))
    case Destroy(_, closes) => w == v.(flags := v.flags.(failed := true, closed := v.flags.closed || closes))
  }

  /** Some round of a prefetch is answered with nothing but empty chunks. */
  ghost predicate MayStall(answers: nat -> Script) {
    exists k: nat :: Stalls(answers(k))
  }

  ghost predicate CouldStall(a: Action) {
    a.TickMore? && MayStall(a.answers)
  }

  lemma HappensSince(a: Action, v: View, w: View)
    requires Happens(a, v, w) && Faithful(v.pipe)
    ensures Since(v.pipe.past, w.pipe.past)
  {
    match a
    case Push(chunk, addToFront) =>
      TakesSince(v.pipe, w.pipe, chunk, addToFront, v.flags.sync, v.flags.flowing,
                 Straight(v.pipe, v.flags.sync, v.flags.flowing, v.flags.listened), v.flags.failed);
    case Read(n, script) =>
      var r, asked :| OneRead(n, script, r, asked, v, w);
      OneReadIs(n, script, r, asked, v, w);
    case TickMore(answers) =>
      if v.flags.more {
        var rounds, dry :| OnePrefetch(answers, rounds, dry, v, w);
        PrefetchIdle(answers, rounds, dry, v, w);
      }
    case _ =>
  }

  lemma StoredAccepted(p: Pipe, d: Bytes, addToFront: bool)
    ensures var log := Events(p.past);
            Accepted(Events(Keeping(p, d, addToFront).past)) == Accepted(Events(Passing(p, d, addToFront).past)) ==
            AcceptedBy(Accepted(log), |Delivered(log)|, Entry(d, addToFront))
  {
    AcceptedMore(Events(p.past), Entry(d, addToFront));
    AcceptedMore(Events(Keeping(p, d, addToFront).past), Data(d));
  }

  /** A push that is not empty: its bytes are accepted, exactly if the stream is open and has not failed. */
  lemma PushAccepted(d: Bytes, addToFront: bool, v: View, w: View)
    requires OnePush(Carries(d), addToFront, v, w) && d != []
    ensures var log, log' := Events(v.pipe.past), Events(w.pipe.past);
            Accepted(log') == if (if addToFront then !v.pipe.endEmitted else !v.pipe.ended) && !v.flags.failed
                              then AcceptedBy(Accepted(log), |Delivered(log)|, Entry(d, addToFront)) else Accepted(log)
  {
    hide Accepted, AcceptedBy, Delivered, Events, Steady;
    StoredAccepted(v.pipe, d, addToFront);
  }

  /** They reach the consumer at once exactly if the stream flows, holds nothing, is listened to and is not in _read. */
  lemma PushDelivered(d: Bytes, addToFront: bool, v: View, w: View)
    requires OnePush(Carries(d), addToFront, v, w) && d != [] && Faithful(v.pipe)
    requires (if addToFront then !v.pipe.endEmitted else !v.pipe.ended) && !v.flags.failed
    ensures Given(w.pipe.past) == Given(v.pipe.past) +
            if v.flags.flowing && v.pipe.length == 0 && !v.flags.sync && v.flags.listened then d else []
  {
    hide Steady;
    KeepingFaithful(v.pipe, d, addToFront);
    if v.pipe.length == 0 { PassingFaithful(v.pipe, d, addToFront); }
    assert Given(v.pipe.past) + [] == Given(v.pipe.past);
  }

  /** The bytes of some pushes. */
  function Joined(ops: seq<Op>): Bytes {
    if ops == [] then []
    else
      var n := |ops| - 1;
      Joined(ops[..n]) + if ops[n].chunk.Carries? then ops[n].chunk.data else []
  }

  /** Whatever chunks _read pushes before it returns are accepted, in order. */
  lemma {:induction false} AnswerAccepted(p: Pipe, ops: seq<Op>)
    requires Faithful(p) && !p.ended && forall i :: 0 <= i < |ops| ==> ops[i].chunk.Carries? && !ops[i].addToFront
    ensures var r := Answered(p, ops);
            && !r.failed && !r.pipe.ended && Faithful(r.pipe)
            && Accepted(Events(r.pipe.past)) == Accepted(Events(p.past)) + Joined(ops)
  {
    hide Faithful, Accepted, Delivered;
    if ops != [] {
      var n := |ops| - 1;
      var r, d := Answered(p, ops[..n]), ops[n].chunk.data;
      AnswerAccepted(p, ops[..n]);
      TakenComes(r.pipe, ops[n].chunk, ops[n].addToFront, r.failed);
      AcceptedMore(Events(r.pipe.past), Entry(d, false));
      AcceptedMore(Events(r.pipe.past), Nothing);
      Regroup(Accepted(Events(p.past)), Joined(ops[..n]), d);
    }
  }

  /** `trace` holds the stream before and after each action. */
  ghost predicate Traces(actions: seq<Action>, trace: seq<View>) {
    && |trace| == |actions| + 1 && Faithful(trace[0].pipe)
    && forall i {:trigger TraceStep(actions, trace, i)} :: 0 <= i < |actions| ==> TraceStep(actions, trace, i)
  }

  ghost predicate TraceStep(actions: seq<Action>, trace: seq<View>, i: nat)
    requires i < |actions| < |trace|
  {
    Happens(actions[i], trace[i], trace[i + 1]) && Faithful(trace[i + 1].pipe)
  }

  lemma TracesOn(actions: seq<Action>, i: nat, trace: seq<View>, w: View)
    requires i < |actions| && Traces(actions[..i], trace) && Happens(actions[i], trace[i], w) && Faithful(w.pipe)
    ensures Traces(actions[..i + 1], trace + [w])
  {
    var before, after, trace' := actions[..i], actions[..i + 1], trace + [w];
    forall k | 0 <= k < |after| ensures TraceStep(after, trace', k) {
      if k < i { assert TraceStep(before, trace, k); }
    }
  }

  lemma {:induction false} TracesSince(actions: seq<Action>, trace: seq<View>, i: nat)
    requires Traces(actions, trace) && i <= |actions|
    ensures Faithful(trace[i].pipe) && Since(trace[0].pipe.past, trace[i].pipe.past)
  {
    if i > 0 {
      TracesSince(actions, trace, i - 1);
      assert TraceStep(actions, trace, i - 1);
      HappensSince(actions[i - 1], trace[i - 1], trace[i]);
      SinceSince(trace[0].pipe.past, trace[i - 1].pipe.past, trace[i].pipe.past);
    }
  }

  /** In every run, a push that is not empty is accepted at its moment, if the stream is open and has not failed. */
  lemma TracesPush(actions: seq<Action>, trace: seq<View>, i: nat)
    requires Traces(actions, trace) && i < |actions|
    requires actions[i].Push? && actions[i].chunk.Carries? && actions[i].chunk.data != []
    ensures var log, log' := Events(trace[i].pipe.past), Events(trace[i + 1].pipe.past);
            Accepted(log') == if (if actions[i].addToFront then !trace[i].pipe.endEmitted else !trace[i].pipe.ended) &&
                                 !trace[i].flags.failed
                              then AcceptedBy(Accepted(log), |Delivered(log)|, Entry(actions[i].chunk.data, actions[i].addToFront))
                              else Accepted(log)
  {
    TracesSince(actions, trace, i);
    assert TraceStep(actions, trace, i);
    PushAccepted(actions[i].chunk.data, actions[i].addToFront, trace[i], trace[i + 1]);
  }

  class Stream {
    const autoDestroy: bool
    var pipe: Pipe
    var highWaterMark: nat
    var flowing: bool
    var sync: bool
    var needReadable: bool
    var readingMore: bool
    var destroyed: bool
    var errored: bool
    var closeEmitted: bool
    var dataListeners: nat
    var moreTicks: nat                // scheduled by process.nextTick: maybeReadMore_
    var endTicks: nat                 //   endReadableNT
    ghost var prefetching: bool       // maybeReadMore_ is running
    ghost var stalled: bool           // the last prefetch got an empty answer, and nothing has come since

    ghost predicate Sound()
      reads this
    {
      Faithful(pipe) && Scheduled(moreTicks, readingMore, prefetching) && (endTicks > 0 ==> pipe.ended)
    }

    ghost predicate Valid()
      reads this
    {
      Sound() && Fed(pipe, highWaterMark, readingMore, destroyed || errored, stalled)
    }

    ghost function Current(): View
      reads this
    {
      View(pipe, highWaterMark, Flags(sync, flowing, dataListeners > 0, destroyed || errored, closeEmitted, readingMore, endTicks > 0))
    }

    /** A stalled stream is one that nobody asks, though there is room. */
    ghost predicate Marked()
      reads this`pipe, this`stalled, this`readingMore, this`highWaterMark
    {
      stalled ==> Idle(pipe, highWaterMark, readingMore, false)
    }

    constructor (mark: nat, destroysItself: bool)
      ensures Valid() && pipe == Empty && !prefetching && !stalled && highWaterMark == mark
      ensures !readingMore && !destroyed && !errored && !flowing
    {
      autoDestroy, pipe, highWaterMark := destroysItself, Empty, mark;
      flowing, sync, needReadable, readingMore := false, true, false, false;
      destroyed, errored, closeEmitted := false, false, false;
      dataListeners, moreTicks, endTicks := 0, 0, 0;
      prefetching, stalled := false, false;
    }

    method MaybeReadMore()
      requires Scheduled(moreTicks, readingMore, prefetching)
      modifies this`readingMore, this`moreTicks, this`stalled
      ensures Scheduled(moreTicks, readingMore, prefetching) && readingMore && !stalled
    {
      stalled := false;
      if !readingMore {
        readingMore := true;
        moreTicks := moreTicks + 1;
      }
    }

    method EndReadable()
      requires pipe.ended
      modifies this`endTicks
      ensures endTicks == old(endTicks) + if pipe.endEmitted then 0 else 1
    {
      if !pipe.endEmitted { endTicks := endTicks + 1; }
    }

    /** Destroys the stream, or only marks it as failed when it does not destroy itself. */
    method ErrorOrDestroy()
      modifies this`destroyed, this`errored
      ensures destroyed == (old(destroyed) || autoDestroy)
      ensures errored == (old(errored) || !old(destroyed))
    {
      if !destroyed {
        errored := true;
        destroyed := autoDestroy;
      }
    }

    predicate Direct()
      reads this
    {
      Straight(pipe, sync, flowing, dataListeners > 0)
    }

    /** The bytes of an accepted chunk go straight to a flowing consumer, or into the list. */
    method AddChunk(d: Bytes, addToFront: bool)
      requires Sound() && d != [] && Open(pipe, addToFront)
      modifies this`pipe, this`needReadable, this`readingMore, this`moreTicks, this`stalled
      ensures Sound() && readingMore && !stalled
      ensures pipe == if old(Direct()) then Passing(old(pipe), d, addToFront) else Keeping(old(pipe), d, addToFront)
      ensures !old(Direct()) ==> Given(pipe.past) == Given(old(pipe.past))
    {
      if flowing && pipe.length == 0 && !sync && dataListeners > 0 {
        PassingFaithful(pipe, d, addToFront);
        pipe := Passing(pipe, d, addToFront);
      } else {
        KeepingFaithful(pipe, d, addToFront);
        pipe := Keeping(pipe, d, addToFront);
        needReadable := false;
      }
      MaybeReadMore();
    }

    /** push and unshift: what is accepted, what is refused, and whether more is wanted. */
    method ReadableAddChunk(chunk: Chunk, addToFront: bool) returns (more: bool)
      requires Valid()
      modifies this`pipe, this`needReadable, this`readingMore, this`moreTicks, this`endTicks,
               this`destroyed, this`errored, this`stalled
      ensures stalled ==> old(stalled)
      ensures Valid()
      ensures Takes(old(pipe), pipe, chunk, addToFront, sync, flowing, old(Direct()), old(destroyed || errored))
      ensures (old(readingMore) ==> readingMore) && (pipe == old(pipe) || readingMore || pipe.ended)
      ensures old(endTicks) <= endTicks
      ensures chunk.Null? && !old(pipe.ended) && !sync && flowing ==>
                (pipe.endEmitted || endTicks > 0) && errored == old(errored)
      ensures (destroyed || errored) <==> old(destroyed || errored) || Fails(old(pipe), chunk, addToFront)
      ensures more <==> !Dropped(old(pipe), chunk, addToFront, old(destroyed || errored)) &&
                        !pipe.ended && (pipe.length < highWaterMark || pipe.length == 0)
    {
      var dropped := Dispatch(chunk, addToFront);
      more := !dropped && !pipe.ended && (pipe.length < highWaterMark || pipe.length == 0);
    }

    method Dispatch(chunk: Chunk, addToFront: bool) returns (dropped: bool)
      requires Valid()
      modifies this`pipe, this`needReadable, this`readingMore, this`moreTicks, this`endTicks,
               this`destroyed, this`errored, this`stalled
      ensures stalled ==> old(stalled)
      ensures Valid()
      ensures Takes(old(pipe), pipe, chunk, addToFront, sync, flowing, old(Direct()), old(destroyed || errored))
      ensures (old(readingMore) ==> readingMore) && (pipe == old(pipe) || readingMore || pipe.ended)
      ensures old(endTicks) <= endTicks
      ensures chunk.Null? && !old(pipe.ended) && !sync && flowing ==>
                (pipe.endEmitted || endTicks > 0) && errored == old(errored)
      ensures (destroyed || errored) <==> old(destroyed || errored) || Fails(old(pipe), chunk, addToFront)
      ensures dropped <==> Dropped(old(pipe), chunk, addToFront, old(destroyed || errored))
    {
      dropped := false;
      if chunk.Invalid? {
        ErrorOrDestroy();
      } else if chunk.Null? {
        OnEofChunk();
      } else if chunk.data != [] {
        dropped := AddBytes(chunk.data, addToFront);
      } else if !addToFront {
        OtherFaithful(pipe);
        pipe := Idling(pipe);
        MaybeReadMore();
      }
    }

    /** A chunk that is not empty: refused after the end or a failure, else added. */
    method AddBytes(d: Bytes, addToFront: bool) returns (dropped: bool)
      requires Valid() && d != []
      modifies this`pipe, this`needReadable, this`readingMore, this`moreTicks, this`destroyed, this`errored,
               this`stalled
      ensures stalled ==> old(stalled)
      ensures Valid() && (old(readingMore) ==> readingMore) && (pipe == old(pipe) || readingMore)
      ensures Takes(old(pipe), pipe, Carries(d), addToFront, sync, flowing, old(Direct()), old(destroyed || errored))
      ensures (destroyed || errored) <==> old(destroyed || errored) || Fails(old(pipe), Carries(d), addToFront)
      ensures dropped <==> Dropped(old(pipe), Carries(d), addToFront, old(destroyed || errored))
    {
      dropped := false;
      if !Open(pipe, addToFront) {
        ErrorOrDestroy();
      } else if destroyed || errored {
        dropped := true;
      } else {
        AddChunk(d, addToFront);
      }
    }

    method OnEofChunk()
      requires Sound()
      modifies this`pipe, this`needReadable, this`endTicks, this`stalled
      ensures Sound() && pipe.ended && !stalled && old(endTicks) <= endTicks
      ensures Takes(old(pipe), pipe, Null, false, sync, flowing, false, false)
      ensures !sync && flowing && !old(pipe.ended) ==> pipe.endEmitted || endTicks > 0
    {
      OtherFaithful(pipe);
      stalled := false;
      if pipe.ended {
        pipe := Idling(pipe);
      } else {
        pipe := Closing(pipe);
        needReadable := false;
        if !sync { FlowOut(); }
      }
    }

    /** The flow once the source has ended, when no read() calls _read. */
    method FlowOut()
      requires Sound() && pipe.ended
      modifies this`pipe, this`needReadable, this`endTicks
      ensures Sound() && old(endTicks) <= endTicks
      ensures if flowing then Drained(old(pipe), pipe) && (pipe.endEmitted || endTicks > 0) else pipe == old(pipe)
    {
      while flowing
        invariant Sound() && Draining(old(pipe), pipe) && old(endTicks) <= endTicks
        invariant !flowing ==> pipe == old(pipe)
        decreases pipe.length
      {
        ghost var before := pipe;
        FirstBound(pipe.buffer);
        ghost var count := HowMuchToRead(None, pipe.length, true, flowing, First(pipe.buffer));
        var r := ReadEnded(None);
        HandsReads(before, before, pipe, None, count, r);
        DrainsOn(old(pipe), before, pipe, r, count);
        if !r.Returned? { break; }
      }
    }

    /** read() once the source has ended. */
    method ReadEnded(n: Option<int>) returns (r: Outcome)
      requires Sound() && pipe.ended
      modifies this`pipe, this`needReadable, this`endTicks
      ensures Sound() && pipe.ended && !r.Threw? && old(endTicks) <= endTicks
      ensures Hands(old(pipe), pipe, r, HowMuchToRead(n, old(pipe.length), true, flowing, First(old(pipe.buffer))))
      ensures r.Returned? <==> HowMuchToRead(n, old(pipe.length), true, flowing, First(old(pipe.buffer))) > 0
      ensures !r.Returned? && pipe.length == 0 ==> pipe.endEmitted || endTicks > 0
    {
      FirstBound(pipe.buffer);
      var count := HowMuchToRead(n, pipe.length, true, flowing, First(pipe.buffer));
      if n == Some(0) && needReadable {
        if pipe.length == 0 { EndReadable(); } else { needReadable := false; }
        return NoData;
      }
      if count == 0 {
        if pipe.length == 0 { EndReadable(); }
        return NoData;
      }
      r := HandOut(n, count);
    }

    /** The end of read(): hand out what was decided, and see to what is needed next. */
    method HandOut(n: Option<int>, count: nat) returns (r: Outcome)
      requires Sound() && count <= pipe.length
      modifies this`pipe, this`needReadable, this`endTicks
      ensures Sound() && old(endTicks) <= endTicks && Hands(old(pipe), pipe, r, count)
      ensures pipe.length == 0 && pipe.ended && (n.None? || n.value != count) ==> pipe.endEmitted || endTicks > 0
    {
      r := NoData;
      if count > 0 {
        var d, q := TakeOut(pipe, count);
        pipe := q;
        r := Returned(d);
      } else {
        needReadable := pipe.length <= highWaterMark;
      }
      if pipe.length == 0 {
        if !pipe.ended { needReadable := true; }
        if (n.None? || n.value != count) && pipe.ended { EndReadable(); }
      }
    }

    /** What _read pushes before it returns. */
    method RunOps(ops: seq<Op>)
      requires Valid() && sync && pipe.reading && !pipe.ended && !destroyed && !errored
      modifies this`pipe, this`needReadable, this`readingMore, this`moreTicks, this`endTicks,
               this`destroyed, this`errored, this`stalled
      ensures stalled ==> old(stalled)
      ensures Valid() && (old(readingMore) ==> readingMore) && (pipe.reading || readingMore || pipe.ended)
      ensures old(endTicks) <= endTicks
      ensures Reply(pipe, destroyed || errored) == Answered(old(pipe), ops)
    {
      var i := 0;
      while i < |ops|
        invariant 0 <= i <= |ops| && Valid() && (pipe.reading || readingMore || pipe.ended)
        invariant (old(readingMore) ==> readingMore) && old(endTicks) <= endTicks
        invariant Reply(pipe, destroyed || errored) == Answered(old(pipe), ops[..i])
      {
        ghost var before := Reply(pipe, destroyed || errored);
        var wanted := ReadableAddChunk(ops[i].chunk, ops[i].addToFront);
        AnsweredMore(old(pipe), before, pipe, ops, i, flowing);
        i := i + 1;
      }
      assert ops[..i] == ops;
    }

    /** The call of _read, which may push before it returns. */
    method Ask(script: Script)
      requires Sound() && !pipe.reading && !pipe.ended && !destroyed && !errored
      modifies this`pipe, this`sync, this`needReadable, this`readingMore, this`moreTicks, this`endTicks,
               this`destroyed, this`errored, this`stalled
      ensures Sound() && !stalled && !sync && Comes(old(pipe), pipe)
      ensures (old(readingMore) ==> readingMore) && (pipe.reading || readingMore || pipe.ended) && old(endTicks) <= endTicks
      ensures Reply(pipe, destroyed || errored) == Consulted(old(pipe), script)
    {
      hide Faithful, Comes, Answered;
      OtherFaithful(pipe);
      ConsultedComes(pipe, script);
      pipe := Asking(pipe);
      stalled := false;
      sync := true;
      if pipe.length == 0 { needReadable := true; }
      RunOps(script.ops);
      if script.throws { ErrorOrDestroy(); }
      sync := false;
    }

    /** Whether read() calls _read first, and how much there then is to hand out. */
    method Refill(n: Option<int>, count: nat, script: Script) returns (take: nat, ghost asked: bool)
      requires Sound() && Marked() && !pipe.ended
      requires count == HowMuchToRead(n, pipe.length, false, flowing, First(pipe.buffer))
      modifies this`pipe, this`sync, this`needReadable, this`readingMore, this`moreTicks, this`endTicks,
               this`destroyed, this`errored, this`stalled
      ensures Sound() && Marked() && (stalled ==> old(stalled)) && (old(readingMore) ==> readingMore) && old(endTicks) <= endTicks
      ensures pipe.reading || readingMore || pipe.ended || destroyed || errored || pipe.length - take >= highWaterMark
      ensures Consults(asked, old(pipe), pipe, script, old(destroyed || errored), destroyed || errored)
      ensures Pressing(old(pipe), n, flowing, highWaterMark) ==> asked || old(pipe.reading || destroyed || errored)
      ensures take == ToTake(old(pipe), pipe, n, flowing) <= pipe.length && sync == (old(sync) && !asked)
    {
      FirstBound(pipe.buffer);
      take, asked := count, false;
      var doRead := needReadable || pipe.length == 0 || pipe.length - count < highWaterMark;
      if doRead && !pipe.reading && !destroyed && !errored {
        Ask(script);
        asked := true;
        if !pipe.reading {
          FirstBound(pipe.buffer);
          take := HowMuchToRead(n, pipe.length, pipe.ended, flowing, First(pipe.buffer));
        }
      }
    }

    /** read() while the source has not ended. */
    method ReadOn(n: Option<int>, script: Script) returns (r: Outcome, ghost asked: bool)
      requires Sound() && Marked() && !pipe.ended
      requires n == Some(0) ==> Valid()
      modifies this`pipe, this`sync, this`needReadable, this`readingMore, this`moreTicks, this`endTicks,
               this`destroyed, this`errored, this`stalled
      ensures Valid() && (stalled ==> old(stalled)) && (old(readingMore) ==> readingMore) && old(endTicks) <= endTicks
      ensures ReadsBy(asked, old(pipe), pipe, n, script, flowing, highWaterMark, old(destroyed || errored), destroyed || errored, r)
      ensures sync == (old(sync) && !asked)
      ensures r == NoData && pipe.ended && pipe.length == 0 && n != Some(0) ==> pipe.endEmitted || endTicks > 0
    {
      hide Faithful, Consulted;
      if n == Some(0) && needReadable &&
         (if highWaterMark != 0 then pipe.length >= highWaterMark else pipe.length > 0)
      {
        needReadable := false;
        return NoData, false;
      }
      r, asked := ReadThrough(n, script);
    }

    method ReadThrough(n: Option<int>, script: Script) returns (r: Outcome, ghost asked: bool)
      requires Sound() && Marked() && !pipe.ended
      modifies this`pipe, this`sync, this`needReadable, this`readingMore, this`moreTicks, this`endTicks,
               this`destroyed, this`errored, this`stalled
      ensures Valid() && (stalled ==> old(stalled)) && (old(readingMore) ==> readingMore) && old(endTicks) <= endTicks
      ensures ReadsBy(asked, old(pipe), pipe, n, script, flowing, highWaterMark, old(destroyed || errored), destroyed || errored, r)
      ensures sync == (old(sync) && !asked)
      ensures r == NoData && pipe.ended && pipe.length == 0 && n != Some(0) ==> pipe.endEmitted || endTicks > 0
    {
      var count := HowMuchToRead(n, pipe.length, false, flowing, First(pipe.buffer));
      hide Faithful, Consults, Answered, Pressing, ToTake;
      var take;
      take, asked := Refill(n, count, script);
      r := HandOut(n, take);
    }

    method ReadAfterEnd(n: Option<int>, ghost script: Script) returns (r: Outcome)
      requires Sound() && Marked() && pipe.ended
      modifies this`pipe, this`needReadable, this`endTicks
      ensures Valid() && pipe.ended && old(endTicks) <= endTicks
      ensures ReadsBy(false, old(pipe), pipe, n, script, flowing, highWaterMark, destroyed || errored, destroyed || errored, r)
      ensures r == NoData && pipe.length == 0 ==> pipe.endEmitted || endTicks > 0
    {
      hide Faithful;
      r := ReadEnded(n);
    }

    /** read() once the size is known not to be too large. */
    method ReadAny(n: Option<int>, script: Script) returns (r: Outcome, ghost asked: bool)
      requires Sound() && Marked() && (n == Some(0) ==> Valid())
      modifies this`pipe, this`sync, this`needReadable, this`readingMore, this`moreTicks, this`endTicks,
               this`destroyed, this`errored, this`stalled
      ensures Valid() && (stalled ==> old(stalled))
      ensures Reading(n, script, r, asked, old(Current()), Current())
    {
      hide Faithful, Fed, ReadsBy;
      if pipe.ended {
        r := ReadAfterEnd(n, script);
        asked := false;
      } else {
        r, asked := ReadOn(n, script);
      }
    }

    /** A size above the high-water mark raises it. */
    method Raise(n: Option<int>)
      requires Sound() && Marked() && (n == Some(0) ==> Valid()) && !TooLarge(n, highWaterMark)
      modifies this`highWaterMark
      ensures Sound() && Marked() && (n == Some(0) ==> Valid())
      ensures Current() == old(Current()).(mark := Raised(n, old(highWaterMark)))
    {
      if n.Some? && n.value > highWaterMark {
        NewHighWaterMarkLeast(n.value);
        highWaterMark := NewHighWaterMark(n.value);
      }
    }

    method Read(n: Option<int>, script: Script) returns (r: Outcome, ghost asked: bool)
      requires Valid()
      modifies this`pipe, this`sync, this`needReadable, this`readingMore, this`moreTicks, this`endTicks,
               this`destroyed, this`errored, this`stalled, this`highWaterMark
      ensures Valid() && (stalled ==> old(stalled))
      ensures OneRead(n, script, r, asked, old(Current()), Current()) && Reads(old(pipe), pipe, n, r)
      ensures (script.ops == [] || old(pipe.ended)) && !r.Threw? ==>
                HandsBytes(old(pipe), pipe, r,
                           HowMuchToRead(n, old(pipe.length), old(pipe.ended), flowing, First(old(pipe.buffer))))
    {
      hide Reading, Reads, HandsBytes;
      if n.Some? && n.value > highWaterMark && n.value > MaxHighWaterMark {
        OneReadIs(n, script, Threw, false, Current(), Current());
        return Threw, false;
      }
      Raise(n);
      r, asked := ReadAny(n, script);
      OneReadIs(n, script, r, asked, old(Current()), Current());
    }

    /**
     read() after read() while the stream flows: what is given are the chunks returned, one after
     the other. It may go on for ever if _read always pushes at once.
     */
    method Flow(scripts: seq<Script>) returns (chunks: seq<Bytes>, ghost turns: nat)
      requires Valid()
      modifies this`pipe, this`sync, this`needReadable, this`readingMore, this`moreTicks, this`endTicks,
               this`destroyed, this`errored, this`stalled, this`highWaterMark
      ensures Valid() && (stalled ==> old(stalled)) && |chunks| <= |scripts|
      ensures OneFlow(scripts, turns, chunks, old(Current()), Current())
    {
      chunks, turns := [], 0;
      var i := 0;
      assert Given(pipe.past) == Given(pipe.past) + Flat(chunks);
      while flowing && i < |scripts|
        invariant 0 <= i <= |scripts| && |chunks| == i == turns && Valid() && (stalled ==> old(stalled))
        invariant Flowing(scripts, turns, chunks, old(Current()), Current())
      {
        ghost var before := Current();
        var r, asked := Read(None, scripts[i]);
        FlowingOn(scripts, i, chunks, old(Current()), before, r, asked, Current());
        turns := turns + 1;
        if !r.Returned? { break; }
        chunks := chunks + [r.data];
        i := i + 1;
      }
    }

    /** The loop of the prefetch. */
    method ProbeAll(scripts: nat -> Script) returns (rounds: nat, ghost dry: bool)
      requires Valid()
      modifies this`pipe, this`sync, this`needReadable, this`readingMore, this`moreTicks, this`endTicks,
               this`destroyed, this`errored, this`stalled, this`highWaterMark
      ensures Valid() && Prefetched(scripts, rounds, dry, old(Current()), Current()) && (dry || !Wants())
    {
      hide Faithful, Fed, OneRead, Scheduled;
      rounds, dry := 0, false;
      while !pipe.reading && !pipe.ended && (pipe.length < highWaterMark || (flowing && pipe.length == 0))
        invariant Valid() && Prefetched(scripts, rounds, false, old(Current()), Current()) && !dry
        decreases AtLeastOne(highWaterMark) - pipe.length
      {
        ghost var before := Current();
        var len := pipe.length;
        var r, asked := Read(Some(0), scripts(rounds));
        OneMoreRound(scripts, rounds, old(Current()), before, r, asked, Current());
        rounds := rounds + 1;
        if len == pipe.length {
          dry := true;
          return;
        }
      }
    }

    /**
     The prefetch: read(0) until enough is held, an answer is pending, or nothing comes. Every
     round but the last brings at least one byte, so the rounds are bounded by what is missing.
     It leaves the source idle exactly when the answer of its last round is empty.
     */
    method MaybeReadMore_(scripts: nat -> Script) returns (rounds: nat, ghost dry: bool)
      requires Valid() && prefetching
      modifies this`pipe, this`sync, this`needReadable, this`readingMore, this`moreTicks, this`endTicks,
               this`destroyed, this`errored, this`stalled, this`highWaterMark, this`prefetching
      ensures Valid() && !prefetching && OnePrefetch(scripts, rounds, dry, old(Current()), Current())
      ensures Comes(old(pipe), pipe) && (rounds == 0 <==> !old(Wants()))
      ensures rounds == 0 || old(pipe.length) + rounds <= AtLeastOne(highWaterMark)
      ensures stalled <==> Idle(pipe, highWaterMark, readingMore, destroyed || errored)
      ensures stalled <==> pipe.length < highWaterMark && rounds > 0 && !destroyed && !errored && Stalls(scripts(rounds - 1))
    {
      hide Faithful, Prefetched, Comes, Lacks, Steady, Stalls, AtLeastOne;
      rounds, dry := ProbeAll(scripts);
      readingMore := false;
      prefetching := false;
      PrefetchIdle(scripts, rounds, dry, old(Current()), Current());
      stalled := Idle(pipe, highWaterMark, false, destroyed || errored);
    }

    /** The condition of the prefetch loop. */
    ghost predicate Wants()
      reads this
    {
      Lacks(Current())
    }

    /** 'end', unless one last unshift came in, an error occurred or the stream is closed. */
    method EndReadableNT()
      requires Valid() && endTicks > 0
      modifies this`pipe, this`endTicks, this`destroyed
      ensures Valid() && endTicks == old(endTicks) - 1
      ensures var ends := !errored && !closeEmitted && !old(pipe.endEmitted) && old(pipe.length) == 0;
              && pipe == (if ends then Finishing(old(pipe)) else old(pipe))
              && destroyed == (old(destroyed) || (ends && autoDestroy))
    {
      endTicks := endTicks - 1;
      if !errored && !closeEmitted && !pipe.endEmitted && pipe.length == 0 {
        OtherFaithful(pipe);
        pipe := Finishing(pipe);
        if autoDestroy { destroyed := true; }
      }
    }

    /** emitReadable_: the 'readable' event, and then the flow. */
    method ReadableTick(scripts: seq<Script>) returns (chunks: seq<Bytes>, ghost turns: nat)
      requires Valid()
      modifies this`pipe, this`sync, this`needReadable, this`readingMore, this`moreTicks, this`endTicks,
               this`destroyed, this`errored, this`stalled, this`highWaterMark
      ensures Valid() && (stalled ==> old(stalled)) && OneFlow(scripts, turns, chunks, old(Current()), Current())
    {
      needReadable := !flowing && !pipe.ended && pipe.length <= highWaterMark;
      hide Faithful, OneFlow;
      chunks, turns := Flow(scripts);
    }

    method MoreTick(scripts: nat -> Script) returns (rounds: nat, ghost dry: bool)
      requires Valid() && moreTicks > 0 && !prefetching
      modifies this`pipe, this`sync, this`needReadable, this`readingMore, this`moreTicks, this`endTicks,
               this`destroyed, this`errored, this`stalled, this`highWaterMark, this`prefetching
      ensures Valid() && !prefetching && OnePrefetch(scripts, rounds, dry, old(Current()), Current())
      ensures stalled <==> Idle(pipe, highWaterMark, readingMore, destroyed || errored)
      ensures stalled <==> pipe.length < highWaterMark && rounds > 0 && !destroyed && !errored && Stalls(scripts(rounds - 1))
    {
      moreTicks := moreTicks - 1;
      prefetching := true;
      rounds, dry := MaybeReadMore_(scripts);
    }

    /** A push, a read, or the 'readable' callback. */
    method Serve(a: Action)
      requires Valid() && !prefetching && (a.Push? || a.Read? || a.TickReadable?)
      modifies this
      ensures Valid() && !prefetching && Happens(a, old(Current()), Current()) && (stalled ==> old(stalled))
    {
      if a.Push? {
        var more := ReadableAddChunk(a.chunk, a.addToFront);
      } else if a.Read? {
        var r, asked := Read(a.n, a.script);
      } else {
        var chunks, turns := ReadableTick(a.scripts);
      }
    }

    /** The callback of the prefetch. */
    method Prefetch(answers: nat -> Script)
      requires Valid() && !prefetching
      modifies this
      ensures Valid() && !prefetching && Happens(TickMore(answers), old(Current()), Current())
      ensures stalled && !old(stalled) ==> MayStall(answers)
    {
      if moreTicks > 0 { var rounds, dry := MoreTick(answers); }
    }

    /** The callback that ends the stream. */
    method EndTick()
      requires Valid() && !prefetching
      modifies this`pipe, this`endTicks, this`destroyed
      ensures Valid() && (if old(endTicks) > 0 then OneEnd(old(Current()), Current()) else Current() == old(Current()))
    {
      if endTicks > 0 { EndReadableNT(); }
    }

    /** What comes from outside. */
    method Change(a: Action)
      requires Valid() && !prefetching && (a.Listen? || a.Destroy?)
      modifies this
      ensures Valid() && !prefetching && Happens(a, old(Current()), Current()) && (stalled ==> old(stalled))
    {
      hide Faithful, OnePush, OneRead, OneFlow, OnePrefetch, OneEnd;
      if a.Listen? {
        flowing, dataListeners, needReadable := a.flows, a.listeners, a.needs;
      } else {
        destroyed, errored, closeEmitted := true, errored || a.fails, closeEmitted || a.closes;
      }
    }

    /**
     One thing that can happen to a stream: a push or a read, a scheduled callback, or a change
     from outside, by listeners coming and going or by destruction.
     */
    method Step(a: Action)
      requires Valid() && !prefetching
      modifies this
      ensures Valid() && !prefetching && Happens(a, old(Current()), Current())
      ensures stalled && !old(stalled) ==> CouldStall(a)
    {
      if a.Push? || a.Read? || a.TickReadable? {
        Serve(a);
      } else if a.TickMore? {
        Prefetch(a.answers);
      } else if a.TickEnd? {
        EndTick();
      } else {
        Change(a);
      }
    }

    /**
     Every run, whatever the source pushes, the consumer reads and the clock runs: `trace` holds
     the stream before and after each action, and each does to it what its flags make it do;
     nothing is lost, doubled or reordered; 'end' comes at most once and last; _read is never called again before it is
     answered; and the source is idle below the high-water mark only where a prefetch was
     answered with nothing but empty chunks.
     */
    method Run(actions: seq<Action>) returns (ghost trace: seq<View>)
      requires Valid() && !prefetching
      modifies this
      ensures Valid() && Lawful(pipe) && Events(old(pipe.past)) <= Events(pipe.past)
      ensures Traces(actions, trace) && trace[0] == old(Current()) && trace[|actions|] == Current()
      ensures stalled && !old(stalled) ==> exists i :: 0 <= i < |actions| && CouldStall(actions[i])
    {
      trace := [Current()];
      var i := 0;
      while i < |actions|
        invariant 0 <= i <= |actions| && Valid() && !prefetching
        invariant Traces(actions[..i], trace) && trace[0] == old(Current()) && trace[i] == Current()
        invariant stalled && !old(stalled) ==> exists j :: 0 <= j < i && CouldStall(actions[j])
      {
        ghost var was := stalled;
        Step(actions[i]);
        TracesOn(actions, i, trace, Current());
        assert stalled && !was ==> CouldStall(actions[i]);
        trace := trace + [Current()];
        i := i + 1;
      }
      assert actions[..i] == actions;
      FaithfulLawful(pipe);
      TracesSince(actions, trace, |actions|);
      SincePrefix(old(pipe.past), pipe.past);
    }

    /** push(null) to a flowing stream hands out everything that is held, and then 'end' comes. */
    method Complete()
      requires Valid() && !prefetching && flowing && !sync && !pipe.ended && !errored && !closeEmitted
      modifies this
      ensures Valid() && pipe.endEmitted && Lawful(pipe)
      ensures Delivered(Events(pipe.past)) == Accepted(Events(pipe.past)) == Accepted(Events(old(pipe.past)))
    {
      OtherFaithful(pipe);
      OverIsEnded(pipe.past);
      var more := ReadableAddChunk(Null, false);
      ghost var drained := pipe;
      EndReadableNT();
      Completed(old(pipe), drained);
    }
  }

  /** A prefetch whose only answer is one empty chunk leaves the source idle for good: nothing is scheduled, nobody is asked. */
  method EmptyAnswerStalls() returns (s: Stream)
    ensures fresh(s) && s.Valid() && s.stalled && s.moreTicks == 0 && s.endTicks == 0
    ensures Idle(s.pipe, s.highWaterMark, s.readingMore, s.destroyed || s.errored)
  {
    hide Faithful, Prefetched;
    s := new Stream(1, true);
    var more := s.ReadableAddChunk(Carries([]), false);
    var empty := Script([Op(Carries([]), false)], false);
    assert !empty.ops[0].addToFront;
    ghost var before := s.Current();
    var rounds, dry := s.MoreTick(_ => empty);
    PrefetchIdle(_ => empty, rounds, dry, before, s.Current());
  }
}
