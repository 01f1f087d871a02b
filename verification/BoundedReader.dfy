/** Reading a response body in chunks, gzip or not, under a byte budget. */
module BoundedReader {
  import opened Basics
  import BoardCache

  newtype byte = x: int | 0 <= x < 256

  type Bytes = seq<byte>

  /** What a decompressor makes of the next byte of a member. */
  datatype Reaction = Fault | Emit(out: Bytes, done: bool)

  /** Any deterministic byte-at-a-time decoder: it reacts to all it has consumed of a member so far. */
  type Codec = Bytes -> Reaction

  const WIRE_OVERHEAD := 65536

  // ---- What a byte string means ----

  /** A whole member: the decoder reports the end on its last byte and not before. */
  ghost predicate Complete(codec: Codec, m: Bytes) {
    && m != []
    && (forall i :: 0 < i < |m| ==> codec(m[..i]).Emit? && !codec(m[..i]).done)
    && codec(m).Emit? && codec(m).done
  }

  function Output(codec: Codec, m: Bytes): Bytes {
    if m == [] then []
    else Output(codec, m[..|m| - 1]) + if codec(m).Emit? then codec(m).out else []
  }

  function Concat(parts: seq<Bytes>): Bytes {
    if parts == [] then [] else Concat(parts[..|parts| - 1]) + parts[|parts| - 1]
  }

  function Outputs(codec: Codec, members: seq<Bytes>): Bytes {
    if members == [] then []
    else Outputs(codec, members[..|members| - 1]) + Output(codec, members[|members| - 1])
  }

  ghost predicate AreMembers(codec: Codec, members: seq<Bytes>) {
    forall i :: 0 <= i < |members| ==> Complete(codec, members[i])
  }

  /** `wire` is one or more complete members, and `body` what they decode to. */
  ghost predicate IsGzip(codec: Codec, wire: Bytes, body: Bytes) {
    exists members: seq<Bytes> ::
      members != [] && AreMembers(codec, members) && Concat(members) == wire && Outputs(codec, members) == body
  }

  // ---- One byte at a time ----

  /** What has been read: the current member, whether it is complete, and the body so far. */
  datatype Stream = Stream(member: Bytes, done: bool, body: Bytes)

  const BEGIN := Stream([], false, [])

  function FeedByte(codec: Codec, s: Stream, b: byte): Option<Stream> {
    var member := if s.done then [b] else s.member + [b];
    match codec(member)
    case Fault => None
    case Emit(out, done) => Some(Stream(member, done, s.body + out))
  }

  function Feed(codec: Codec, s: Stream, bytes: Bytes): Option<Stream> {
    if bytes == [] then Some(s)
    else
      var n := |bytes| - 1;
      var before := Feed(codec, s, bytes[..n]);
      if before.None? then None else FeedByte(codec, before.value, bytes[n])
  }

  lemma FeedAppend(codec: Codec, s: Stream, bytes: Bytes, b: byte)
    ensures Feed(codec, s, bytes + [b])
         == var before := Feed(codec, s, bytes); if before.None? then None else FeedByte(codec, before.value, b)
  {
    assert (bytes + [b])[..|bytes|] == bytes;
  }

  lemma {:induction false} FeedConcat(codec: Codec, s: Stream, a: Bytes, b: Bytes)
    ensures Feed(codec, s, a + b)
         == var middle := Feed(codec, s, a); if middle.None? then None else Feed(codec, middle.value, b)
  {
    if b == [] {
      assert a + b == a;
    } else {
      var n := |b| - 1;
      FeedConcat(codec, s, a, b[..n]);
      assert (a + b)[..|a + b| - 1] == a + b[..n];
    }
  }

  lemma {:induction false} BodyGrows(codec: Codec, s: Stream, bytes: Bytes)
    ensures Feed(codec, s, bytes).Some? ==> |s.body| <= |Feed(codec, s, bytes).value.body|
  {
    if bytes != [] {
      BodyGrows(codec, s, bytes[..|bytes| - 1]);
    }
  }

  /** What was decoded earlier stays in front. */
  lemma {:induction false} FeedShift(codec: Codec, s: Stream, base: Bytes, bytes: Bytes)
    ensures Feed(codec, s.(body := base + s.body), bytes)
         == var r := Feed(codec, s, bytes); if r.None? then None else Some(r.value.(body := base + r.value.body))
  {
    if bytes != [] {
      var n := |bytes| - 1;
      FeedShift(codec, s, base, bytes[..n]);
      if Feed(codec, s, bytes[..n]).Some? {
        ByteShift(codec, Feed(codec, s, bytes[..n]).value, base, bytes[n]);
      }
    }
  }

  lemma ByteShift(codec: Codec, s: Stream, base: Bytes, b: byte)
    ensures FeedByte(codec, s.(body := base + s.body), b)
         == var r := FeedByte(codec, s, b); if r.None? then None else Some(r.value.(body := base + r.value.body))
  {
    var member := if s.done then [b] else s.member + [b];
    if codec(member).Emit? {
      assert base + s.body + codec(member).out == base + (s.body + codec(member).out);
    }
  }

  // ---- Streams and members ----

  lemma ConcatAppend(parts: seq<Bytes>, p: Bytes)
    ensures Concat(parts + [p]) == Concat(parts) + p
  {
    assert (parts + [p])[..|parts|] == parts;
  }

  lemma OutputsAppend(codec: Codec, members: seq<Bytes>, m: Bytes)
    ensures Outputs(codec, members + [m]) == Outputs(codec, members) + Output(codec, m)
  {
    assert (members + [m])[..|members|] == members;
  }

  /** A proper prefix of a member leaves its decoder waiting. */
  ghost predicate Partial(codec: Codec, m: Bytes) {
    forall i :: 0 < i <= |m| ==> codec(m[..i]).Emit? && !codec(m[..i]).done
  }

  ghost predicate Explains(codec: Codec, wire: Bytes, s: Stream, members: seq<Bytes>) {
    && AreMembers(codec, members)
    && if s.done then
         members != [] && s.member == members[|members| - 1]
         && wire == Concat(members) && s.body == Outputs(codec, members)
       else
         Partial(codec, s.member) && (members == [] || s.member != [])
         && wire == Concat(members) + s.member && s.body == Outputs(codec, members) + Output(codec, s.member)
  }

  lemma PartialAppend(codec: Codec, m: Bytes, b: byte)
    requires Partial(codec, m) && codec(m + [b]).Emit?
    ensures if codec(m + [b]).done then Complete(codec, m + [b]) else Partial(codec, m + [b])
    ensures Output(codec, m + [b]) == Output(codec, m) + codec(m + [b]).out
  {
    var m' := m + [b];
    assert m'[..|m|] == m && m'[..|m'|] == m';
    forall i | 0 < i <= |m| ensures m'[..i] == m[..i] {
    }
  }

  /** What has been read, as complete members and the beginning of another, perhaps empty. */
  ghost predicate Splits(codec: Codec, wire: Bytes, body: Bytes, members: seq<Bytes>, begun: Bytes) {
    && Partial(codec, begun)
    && wire == Concat(members) + begun && body == Outputs(codec, members) + Output(codec, begun)
  }

  function Begun(s: Stream): Bytes {
    if s.done then [] else s.member
  }

  lemma ExplainsSplits(codec: Codec, wire: Bytes, s: Stream, members: seq<Bytes>)
    requires Explains(codec, wire, s, members)
    ensures Splits(codec, wire, s.body, members, Begun(s))
  {
    if s.done {
      assert Output(codec, []) == [];
      assert Concat(members) + [] == wire && Outputs(codec, members) + [] == s.body;
    }
  }

  lemma SplitsByte(codec: Codec, front: Bytes, body: Bytes, members: seq<Bytes>, begun: Bytes, b: byte)
    requires Splits(codec, front, body, members, begun) && codec(begun + [b]).Emit?
    ensures front + [b] == Concat(members) + (begun + [b])
    ensures body + codec(begun + [b]).out == Outputs(codec, members) + Output(codec, begun + [b])
  {
    PartialAppend(codec, begun, b);
  }

  lemma ExplainsByte(codec: Codec, front: Bytes, s: Stream, members: seq<Bytes>, b: byte, wire: Bytes)
    requires Explains(codec, front, s, members) && FeedByte(codec, s, b).Some? && wire == front + [b]
    ensures var s' := FeedByte(codec, s, b).value;
            Explains(codec, wire, s', if s'.done then members + [s'.member] else members)
  {
    var s', begun := FeedByte(codec, s, b).value, Begun(s);
    assert s'.member == begun + [b];
    ExplainsSplits(codec, front, s, members);
    SplitsByte(codec, front, s.body, members, begun, b);
    PartialAppend(codec, begun, b);
    if s'.done {
      ConcatAppend(members, s'.member);
      OutputsAppend(codec, members, s'.member);
    }
  }

  lemma LastByte(codec: Codec, wire: Bytes)
    requires wire != [] && Feed(codec, BEGIN, wire).Some?
    ensures var before := Feed(codec, BEGIN, wire[..|wire| - 1]);
            before.Some? && FeedByte(codec, before.value, wire[|wire| - 1]) == Feed(codec, BEGIN, wire)
  {
  }

  /** Whatever a decoder has swallowed splits into complete members and one begun. */
  lemma {:induction false} FeedExplains(codec: Codec, wire: Bytes) returns (members: seq<Bytes>)
    requires Feed(codec, BEGIN, wire).Some?
    ensures Explains(codec, wire, Feed(codec, BEGIN, wire).value, members)
  {
    members := [];
    if wire != [] {
      var front, b := wire[..|wire| - 1], wire[|wire| - 1];
      LastByte(codec, wire);
      assert wire == front + [b];
      var before := FeedExplains(codec, front);
      ExplainsByte(codec, front, Feed(codec, BEGIN, front).value, before, b, wire);
      var s := Feed(codec, BEGIN, wire).value;
      members := if s.done then before + [s.member] else before;
    }
  }

  lemma {:induction false} FeedPartial(codec: Codec, s: Stream, m: Bytes)
    requires s.done || s.member == []
    requires Partial(codec, m) && m != []
    ensures Feed(codec, s, m) == Some(Stream(m, false, s.body + Output(codec, m)))
  {
    var n := |m| - 1;
    assert m[..n] + [m[n]] == m && m[..|m|] == m;
    if n > 0 {
      assert Partial(codec, m[..n]) by {
        forall i | 0 < i <= n ensures m[..n][..i] == m[..i] {
        }
      }
      FeedPartial(codec, s, m[..n]);
      assert s.body + Output(codec, m[..n]) + codec(m).out == s.body + (Output(codec, m[..n]) + codec(m).out);
    } else {
      assert m[..n] == [] && Output(codec, []) == [];
      assert s.body + codec(m).out == s.body + ([] + codec(m).out);
      assert [] + [m[n]] == m;
    }
  }

  lemma FeedMember(codec: Codec, s: Stream, m: Bytes)
    requires s.done || s.member == []
    requires Complete(codec, m)
    ensures Feed(codec, s, m) == Some(Stream(m, true, s.body + Output(codec, m)))
  {
    var n := |m| - 1;
    assert m[..n] + [m[n]] == m;
    if n > 0 {
      assert Partial(codec, m[..n]) by {
        forall i | 0 < i <= n ensures m[..n][..i] == m[..i] {
        }
      }
      FeedPartial(codec, s, m[..n]);
      assert s.body + Output(codec, m[..n]) + codec(m).out == s.body + (Output(codec, m[..n]) + codec(m).out);
    } else {
      assert m[..n] == [] && Output(codec, []) == [];
      assert s.body + codec(m).out == s.body + ([] + codec(m).out);
      assert [] + [m[n]] == m;
    }
  }

  lemma {:induction false} FeedMembers(codec: Codec, members: seq<Bytes>)
    requires members != [] && AreMembers(codec, members)
    ensures Feed(codec, BEGIN, Concat(members))
         == Some(Stream(members[|members| - 1], true, Outputs(codec, members)))
  {
    var n := |members| - 1;
    var before := Concat(members[..n]);
    if n > 0 {
      FeedMembers(codec, members[..n]);
    } else {
      assert before == [];
    }
    FeedConcat(codec, BEGIN, before, members[n]);
    FeedMember(codec, Feed(codec, BEGIN, before).value, members[n]);
  }

  /** Being gzip is being swallowed byte by byte up to the end of a member; so the members, and with
      them the body, are determined by the bytes. */
  lemma GzipIsFeed(codec: Codec, wire: Bytes, body: Bytes)
    ensures IsGzip(codec, wire, body) <==>
            Feed(codec, BEGIN, wire).Some? && Feed(codec, BEGIN, wire).value.done
            && Feed(codec, BEGIN, wire).value.body == body
  {
    if IsGzip(codec, wire, body) {
      var members: seq<Bytes> :| members != [] && AreMembers(codec, members)
        && Concat(members) == wire && Outputs(codec, members) == body;
      FeedMembers(codec, members);
    }
    if Feed(codec, BEGIN, wire).Some? && Feed(codec, BEGIN, wire).value.done {
      var members := FeedExplains(codec, wire);
    }
  }

  // ---- The decompressor object ----

  lemma NextByte(codec: Codec, s: Stream, raw: Bytes, n: nat)
    requires n < |raw| && Feed(codec, s, raw[..n]).Some?
    ensures Feed(codec, s, raw[..n + 1]) == FeedByte(codec, Feed(codec, s, raw[..n]).value, raw[n])
  {
    assert raw[..n + 1] == raw[..n] + [raw[n]];
    FeedAppend(codec, s, raw[..n], raw[n]);
  }

  lemma FaultEnds(codec: Codec, s: Stream, raw: Bytes, n: nat)
    requires n <= |raw| && Feed(codec, s, raw[..n]) == None
    ensures Feed(codec, s, raw) == None
  {
    assert raw == raw[..n] + raw[n..];
    FeedConcat(codec, s, raw[..n], raw[n..]);
  }

  class Decompressor {
    const codec: Codec
    var member: Bytes
    var eof: bool
    var backlog: Bytes
    var unusedData: Bytes
    var unconsumedTail: Bytes

    ghost predicate Drained()
      reads this
    {
      backlog == [] && unusedData == [] && unconsumedTail == []
    }

    ghost function View(): Stream
      reads this
    {
      Stream(member, eof, [])
    }

    constructor (codec: Codec)
      ensures this.codec == codec && Drained() && View() == BEGIN
    {
      this.codec := codec;
      member, eof, backlog, unusedData, unconsumedTail := [], false, [], [], [];
    }

    /**
     Decode `raw`, returning at most `max` bytes; None is the library's error. A full output buffer
     leaves the rest of `raw` as the unconsumed tail, the end of the member leaves it as unused data.
     */
    method Decompress(raw: Bytes, max: nat) returns (r: Option<Bytes>)
      requires Drained() && max >= 1
      modifies this
      ensures r.None? ==> Feed(codec, old(View()), raw) == None
      ensures r.Some? ==>
                && |r.value| <= max && (|r.value| < max ==> backlog == [] && unconsumedTail == [])
                && (!eof ==> unusedData == []) && (unconsumedTail != [] ==> unusedData == [])
      ensures r.Some? ==>
                var n := |raw| - |unusedData| - |unconsumedTail|;
                && n >= 0 && raw[n..] == unusedData + unconsumedTail
                && (n == 0 <==> raw == [] || old(eof))
                && Feed(codec, old(View()), raw[..n]) == Some(Stream(member, eof, r.value + backlog))
    {
      if eof {
        unusedData := raw;
        assert |raw| - |unusedData| - |unconsumedTail| == 0;
        assert raw[0..] == raw + [] && raw[..0] == [] && [] + backlog == [];
        return Some([]);
      }
      var n, out := Consume(raw, max);
      if n.None? {
        return None;
      }
      if eof {
        unusedData := raw[n.value..];
      } else {
        unconsumedTail := raw[n.value..];
      }
      assert unusedData + unconsumedTail == raw[n.value..];
      assert |raw| - |unusedData| - |unconsumedTail| == n.value;
      var given := if |out| > max then max else |out|;
      backlog := out[given..];
      assert out[..given] + backlog == out;
      return Some(out[..given]);
    }

    /** The bytes taken up, until the member ends or the buffer is full, and what they decode to. */
    method Consume(raw: Bytes, max: nat) returns (taken: Option<nat>, out: Bytes)
      requires Drained() && max >= 1 && !eof
      modifies this`member, this`eof
      ensures taken.None? ==> Feed(codec, old(View()), raw) == None
      ensures taken.Some? ==>
                && taken.value <= |raw| && (taken.value == 0 <==> raw == [])
                && Feed(codec, old(View()), raw[..taken.value]) == Some(Stream(member, eof, out))
                && (taken.value < |raw| && !eof ==> |out| >= max)
    {
      ghost var s := View();
      out := [];
      var n := 0;
      while n < |raw| && !eof && |out| < max
        invariant 0 <= n <= |raw| && (n == 0 ==> out == [] && !eof)
        invariant Feed(codec, s, raw[..n]) == Some(Stream(member, eof, out))
        decreases |raw| - n
      {
        NextByte(codec, s, raw, n);
        member := member + [raw[n]];
        match codec(member) {
          case Fault =>
            FaultEnds(codec, s, raw, n + 1);
            return None, [];
          case Emit(more, done) =>
            out, eof := out + more, done;
        }
        n := n + 1;
      }
      return Some(n), out;
    }
  }

  // ---- The reader ----

  datatype Reply = Body(bytes: Bytes) | OverLimit | BadGzip | Incomplete | Unsupported

  /** Reading `bytes` from `s` cannot end within the budget. */
  ghost predicate Hopeless(codec: Codec, s: Stream, bytes: Bytes, max: nat) {
    Feed(codec, s, bytes).Some? ==> |Feed(codec, s, bytes).value.body| > max
  }

  lemma HopelessOn(codec: Codec, s: Stream, a: Bytes, b: Bytes, max: nat)
    requires Hopeless(codec, s, a, max)
    ensures Hopeless(codec, s, a + b, max)
  {
    FeedConcat(codec, s, a, b);
    if Feed(codec, s, a).Some? {
      BodyGrows(codec, Feed(codec, s, a).value, b);
    }
  }

  lemma HopelessFrom(codec: Codec, s: Stream, a: Bytes, s': Stream, b: Bytes, max: nat)
    requires Feed(codec, s, a) == Some(s') && Hopeless(codec, s', b, max)
    ensures Hopeless(codec, s, a + b, max)
  {
    FeedConcat(codec, s, a, b);
  }

  /** After a complete member the next byte starts a new decoder. */
  lemma {:induction false} Restart(codec: Codec, s: Stream, bytes: Bytes)
    requires s.done && bytes != []
    ensures Feed(codec, s, bytes) == Feed(codec, BEGIN.(body := s.body), bytes)
  {
    if |bytes| > 1 {
      Restart(codec, s, bytes[..|bytes| - 1]);
    } else {
      assert bytes[..0] == [] && [] + [bytes[0]] == [bytes[0]];
    }
  }

  /** All of `chunk` but its end `unused` has been decoded, from `s` to `now`. */
  ghost predicate Midway(codec: Codec, s: Stream, chunk: Bytes, now: Stream, unused: Bytes, max: nat) {
    var n := |chunk| - |unused|;
    && n >= 0 && chunk[n..] == unused && (unused != [] ==> now.done)
    && |now.body| <= max && Feed(codec, s, chunk[..n]) == Some(now)
  }

  lemma Whole(codec: Codec, s: Stream, chunk: Bytes, now: Stream, max: nat)
    requires Midway(codec, s, chunk, now, [], max)
    ensures Feed(codec, s, chunk) == Some(now) && |now.body| <= max
  {
    assert chunk[..|chunk|] == chunk;
  }

  /** The tail of a tail. */
  lemma Splice(chunk: Bytes, raw: Bytes, unused: Bytes)
    requires |unused| <= |raw| <= |chunk|
    requires chunk[|chunk| - |raw|..] == raw && raw[|raw| - |unused|..] == unused
    ensures chunk[|chunk| - |unused|..] == unused
    ensures chunk[..|chunk| - |unused|] == chunk[..|chunk| - |raw|] + raw[..|raw| - |unused|]
  {
    PartialConcat(chunk, |chunk| - |raw|, |raw| - |unused|);
  }

  lemma PartialConcat(chunk: Bytes, n: nat, k: nat)
    requires n + k <= |chunk|
    ensures chunk[..n + k] == chunk[..n] + chunk[n..][..k] && chunk[n + k..] == chunk[n..][k..]
  {
  }

  lemma NextMember(codec: Codec, s: Stream, chunk: Bytes, s': Stream, raw: Bytes, s'': Stream, unused: Bytes, max: nat)
    requires Midway(codec, s, chunk, s', raw, max) && raw != [] && |unused| < |raw|
    requires Midway(codec, BEGIN.(body := s'.body), raw, s'', unused, max)
    ensures Midway(codec, s, chunk, s'', unused, max)
  {
    Splice(chunk, raw, unused);
    FeedAcross(codec, s, chunk[..|chunk| - |unused|], chunk[..|chunk| - |raw|], s', raw[..|raw| - |unused|], s'');
  }

  lemma FeedAcross(codec: Codec, s: Stream, ab: Bytes, a: Bytes, s': Stream, b: Bytes, s'': Stream)
    requires ab == a + b && Feed(codec, s, a) == Some(s') && s'.done && b != []
    requires Feed(codec, BEGIN.(body := s'.body), b) == Some(s'')
    ensures Feed(codec, s, ab) == Some(s'')
  {
    FeedMore(codec, s, a, s', b, s'');
  }

  lemma FeedMore(codec: Codec, s: Stream, a: Bytes, s': Stream, b: Bytes, s'': Stream)
    requires Feed(codec, s, a) == Some(s') && s'.done && b != []
    requires Feed(codec, BEGIN.(body := s'.body), b) == Some(s'')
    ensures Feed(codec, s, a + b) == Some(s'')
  {
    Restart(codec, s', b);
    FeedConcat(codec, s, a, b);
  }

  lemma NextFails(codec: Codec, s: Stream, chunk: Bytes, s': Stream, raw: Bytes, max: nat)
    requires Midway(codec, s, chunk, s', raw, max) && raw != []
    requires Hopeless(codec, BEGIN.(body := s'.body), raw, max)
    ensures Hopeless(codec, s, chunk, max)
  {
    var n := |chunk| - |raw|;
    assert chunk == chunk[..n] + raw;
    Restart(codec, s', raw);
    HopelessFrom(codec, s, chunk[..n], s', raw, max);
  }

  /** Decoding on its own, seen from the body so far. */
  lemma Decoded(codec: Codec, s: Stream, body: Bytes, bytes: Bytes, end: Stream, out: Bytes, backlog: Bytes)
    requires s.body == [] && Feed(codec, s, bytes) == Some(end.(body := out + backlog))
    ensures Feed(codec, s.(body := body), bytes) == Some(end.(body := body + out + backlog))
  {
    FeedShift(codec, s, body, bytes);
    assert body + [] == body && body + (out + backlog) == body + out + backlog;
  }

  /** Decode into what is left of the budget, and append. */
  method Inflate(decoder: Decompressor, raw: Bytes, body: Bytes, max: nat) returns (longer: Bytes, r: Option<Reply>)
    requires decoder.Drained() && |body| <= max
    modifies decoder
    ensures r.Some? ==> r.value in {OverLimit, BadGzip}
                        && Hopeless(decoder.codec, Stream(old(decoder.member), old(decoder.eof), body), raw, max)
    ensures r.None? ==>
              && decoder.backlog == [] && decoder.unconsumedTail == []
              && (raw != [] && !old(decoder.eof) ==> |decoder.unusedData| < |raw|)
              && Midway(decoder.codec, Stream(old(decoder.member), old(decoder.eof), body), raw,
                        Stream(decoder.member, decoder.eof, longer), decoder.unusedData, max)
  {
    ghost var view := decoder.View();
    ghost var s := view.(body := body);
    assert body + [] == body;
    longer, r := body, None;
    var out := decoder.Decompress(raw, max - |body| + 1);
    if out.None? {
      FeedShift(decoder.codec, view, body, raw);
      return body, Some(BadGzip);
    }
    ghost var n := |raw| - |decoder.unusedData| - |decoder.unconsumedTail|;
    longer := body + out.value;
    Decoded(decoder.codec, view, body, raw[..n], Stream(decoder.member, decoder.eof, []), out.value, decoder.backlog);
    if |longer| > max {
      assert raw == raw[..n] + raw[n..];
      HopelessOn(decoder.codec, s, raw[..n], raw[n..], max);
      return body, Some(OverLimit);
    }
    assert longer + [] == longer;
  }

  /** One chunk: the current decoder, then a new one for each member that starts inside it. */
  method DecodeChunk(first: Decompressor, chunk: Bytes, start: Bytes, max: nat)
    returns (decoder: Decompressor, body: Bytes, r: Option<Reply>)
    requires first.Drained() && |start| <= max
    modifies first
    ensures r.Some? ==> r.value in {OverLimit, BadGzip}
                        && Hopeless(first.codec, Stream(old(first.member), old(first.eof), start), chunk, max)
    ensures decoder == first || fresh(decoder)
    ensures r.None? ==>
              && decoder.Drained() && decoder.codec == first.codec && |body| <= max
              && Feed(first.codec, Stream(old(first.member), old(first.eof), start), chunk)
                 == Some(Stream(decoder.member, decoder.eof, body))
  {
    ghost var codec := first.codec;
    ghost var s := Stream(first.member, first.eof, start);
    decoder := first;
    body, r := Inflate(decoder, chunk, start, max);
    if r.Some? {
      return;
    }
    while decoder.unusedData != []
      invariant decoder == first || fresh(decoder)
      invariant decoder.codec == codec && decoder.backlog == [] && decoder.unconsumedTail == []
      invariant Midway(codec, s, chunk, Stream(decoder.member, decoder.eof, body), decoder.unusedData, max)
      decreases |decoder.unusedData|
    {
      var raw := decoder.unusedData;
      ghost var s' := Stream(decoder.member, decoder.eof, body);
      decoder := new Decompressor(first.codec);
      body, r := Inflate(decoder, raw, body, max);
      if r.Some? {
        NextFails(codec, s, chunk, s', raw, max);
        return;
      }
      NextMember(codec, s, chunk, s', raw, Stream(decoder.member, decoder.eof, body), decoder.unusedData, max);
    }
    Whole(codec, s, chunk, Stream(decoder.member, decoder.eof, body), max);
    r := None;
  }

  /** What a reader has to answer, from the bytes on the wire alone. */
  ghost predicate Reads(codec: Codec, encoding: string, wire: Bytes, max: nat, r: Reply) {
    if encoding == "gzip" then
      && (forall b :: r == Body(b) <==> IsGzip(codec, wire, b) && |b| <= max && |wire| <= max + WIRE_OVERHEAD)
      && (r.Incomplete? <==>
            && |wire| <= max + WIRE_OVERHEAD && Feed(codec, BEGIN, wire).Some?
            && !Feed(codec, BEGIN, wire).value.done && |Feed(codec, BEGIN, wire).value.body| <= max)
      && !r.Unsupported?
    else if encoding in {"", "identity"} then r == if |wire| <= max then Body(wire) else OverLimit
    else r == Unsupported
  }

  lemma GzipRejected(codec: Codec, wire: Bytes, max: nat, r: Reply)
    requires r in {OverLimit, BadGzip}
    requires |wire| > max + WIRE_OVERHEAD || Hopeless(codec, BEGIN, wire, max)
    ensures Reads(codec, "gzip", wire, max, r)
  {
    forall b ensures !(IsGzip(codec, wire, b) && |b| <= max && |wire| <= max + WIRE_OVERHEAD) {
      GzipIsFeed(codec, wire, b);
    }
  }

  lemma GzipRead(codec: Codec, wire: Bytes, max: nat, s: Stream)
    requires |wire| <= max + WIRE_OVERHEAD && Feed(codec, BEGIN, wire) == Some(s) && |s.body| <= max
    ensures Reads(codec, "gzip", wire, max, if s.done then Body(s.body) else Incomplete)
  {
    forall b ensures IsGzip(codec, wire, b) <==> s.done && s.body == b {
      GzipIsFeed(codec, wire, b);
    }
  }

  lemma {:induction false} ConcatSplit(chunks: seq<Bytes>, n: nat)
    requires n <= |chunks|
    ensures Concat(chunks) == Concat(chunks[..n]) + Concat(chunks[n..])
  {
    if n == |chunks| {
      assert chunks[..n] == chunks && chunks[n..] == [];
    } else {
      var k := |chunks| - 1;
      ConcatSplit(chunks[..k], n);
      assert chunks[..k][..n] == chunks[..n];
      assert chunks[n..][..|chunks[n..]| - 1] == chunks[..k][n..];
    }
  }

  /** The chunks only matter through the bytes they spell. `consumed` is the content of a response
      that a transport supplied already decoded. */
  method ReadBody(codec: Codec, consumed: Option<Bytes>, encoding: string, chunks: seq<Bytes>, max: nat)
    returns (r: Reply)
    requires max > 0
    ensures consumed.Some? ==> r == if |consumed.value| <= max then Body(consumed.value) else OverLimit
    ensures consumed.None? ==> Reads(codec, encoding, Concat(chunks), max, r)
  {
    if consumed.Some? {
      return if |consumed.value| > max then OverLimit else Body(consumed.value);
    }
    if encoding !in {"", "identity", "gzip"} {
      return Unsupported;
    }
    var body: Bytes := [];
    var wire := 0;
    var decoder := new Decompressor(codec);
    for n := 0 to |chunks|
      invariant wire == |Concat(chunks[..n])| <= max + WIRE_OVERHEAD && |body| <= max
      invariant fresh(decoder) && decoder.codec == codec && decoder.Drained()
      invariant if encoding == "gzip" then
                  Feed(codec, BEGIN, Concat(chunks[..n])) == Some(Stream(decoder.member, decoder.eof, body))
                else body == Concat(chunks[..n])
    {
      var raw := chunks[n];
      ghost var before, rest := Concat(chunks[..n]), Concat(chunks[n + 1..]);
      assert chunks[..n + 1] == chunks[..n] + [raw];
      ConcatAppend(chunks[..n], raw);
      ConcatSplit(chunks, n + 1);
      wire := wire + |raw|;
      if wire > max + WIRE_OVERHEAD {
        if encoding == "gzip" {
          GzipRejected(codec, Concat(chunks), max, OverLimit);
        }
        return OverLimit;
      }
      if encoding != "gzip" {
        if |body| + |raw| > max {
          return OverLimit;
        }
        body := body + raw;
      } else {
        ghost var s := Stream(decoder.member, decoder.eof, body);
        var failed;
        decoder, body, failed := DecodeChunk(decoder, raw, body, max);
        if failed.Some? {
          HopelessFrom(codec, BEGIN, before, s, raw, max);
          HopelessOn(codec, BEGIN, before + raw, rest, max);
          GzipRejected(codec, Concat(chunks), max, failed.value);
          return failed.value;
        }
        FeedConcat(codec, BEGIN, before, raw);
      }
    }
    assert chunks[..|chunks|] == chunks;
    if encoding == "gzip" {
      GzipRead(codec, Concat(chunks), max, Stream(decoder.member, decoder.eof, body));
      if !decoder.eof {
        return Incomplete;
      }
    }
    return Body(body);
  }

  /** The whole reading: a response that says the token or its board is gone invalidates the cached
      lists of the token first, whatever then becomes of its body. */
  method ReadResponse(codec: Codec, store: BoardCache.Store, token: Option<string>, status: int,
                      consumed: Option<Bytes>, encoding: string, chunks: seq<Bytes>, max: nat) returns (r: Reply)
    requires max > 0 && store.Valid()
    modifies store, store.Tickets()
    ensures store.Valid()
    ensures store.View() == if token.Some? && token.value != "" && status in {401, 403, 404}
                            then BoardCache.Clear(old(store.View()), token) else old(store.View())
    ensures consumed.Some? ==> r == if |consumed.value| <= max then Body(consumed.value) else OverLimit
    ensures consumed.None? ==> Reads(codec, encoding, Concat(chunks), max, r)
  {
    if token.Some? && token.value != "" && status in {401, 403, 404} {
      store.ClearBoards(token);
    }
    r := ReadBody(codec, consumed, encoding, chunks, max);
  }

  /** However the same bytes are cut into chunks, they are accepted with the same body, rejected, or
      found incomplete alike. */
  lemma ChunkingIrrelevant(codec: Codec, encoding: string, a: seq<Bytes>, b: seq<Bytes>, max: nat, ra: Reply, rb: Reply)
    requires Concat(a) == Concat(b)
    requires Reads(codec, encoding, Concat(a), max, ra) && Reads(codec, encoding, Concat(b), max, rb)
    ensures ra.Body? || rb.Body? || ra.Incomplete? || rb.Incomplete? ==> ra == rb
  {
    if ra.Body? {
      assert rb == Body(ra.bytes);
    } else if rb.Body? {
      assert ra == Body(rb.bytes);
    }
  }
}
