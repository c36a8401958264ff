/** The re-framer (internal/aicall/framer.go): a model's chunks of audio cut into the
    fixed frames the telephone leg sends. */
module Framer {
  newtype byte = x: int | 0 <= x < 256

  /** The whole frames of s. */
  function Frames(size: nat, s: seq<byte>): seq<seq<byte>>
    requires size > 0
    decreases |s|
  {
    if |s| < size then [] else [s[..size]] + Frames(size, s[size..])
  }

  /** What is left of s after its whole frames. */
  function Rest(size: nat, s: seq<byte>): (r: seq<byte>)
    requires size > 0
    ensures |r| < size
    decreases |s|
  {
    if |s| < size then s else Rest(size, s[size..])
  }

  function Flatten(frames: seq<seq<byte>>): seq<byte> {
    if frames == [] then [] else frames[0] + Flatten(frames[1..])
  }

  lemma {:induction false} FlattenAppend(a: seq<seq<byte>>, b: seq<seq<byte>>)
    ensures Flatten(a + b) == Flatten(a) + Flatten(b)
    decreases |a|
  {
    if a == [] {
      assert a + b == b;
    } else {
      FlattenAppend(a[1..], b);
      assert (a + b)[1..] == a[1..] + b;
    }
  }

  /** Cutting loses and adds nothing, and every frame is one frame long. */
  lemma {:induction false} CutIsExact(size: nat, s: seq<byte>)
    requires size > 0
    ensures Flatten(Frames(size, s)) + Rest(size, s) == s
    ensures forall i :: 0 <= i < |Frames(size, s)| ==> |Frames(size, s)[i]| == size
    decreases |s|
  {
    if |s| >= size {
      CutIsExact(size, s[size..]);
      var first, others := s[..size], Frames(size, s[size..]);
      assert ([first] + others)[1..] == others;
      assert first + (Flatten(others) + Rest(size, s[size..])) == s;
    }
  }

  /** Cutting in two goes is cutting in one. */
  lemma {:induction false} CutAppend(size: nat, a: seq<byte>, b: seq<byte>)
    requires size > 0
    ensures Frames(size, a + b) == Frames(size, a) + Frames(size, Rest(size, a) + b)
    ensures Rest(size, a + b) == Rest(size, Rest(size, a) + b)
    decreases |a|
  {
    if |a| >= size {
      CutAppend(size, a[size..], b);
      assert (a + b)[..size] == a[..size];
      assert (a + b)[size..] == a[size..] + b;
    }
  }

  function Silent(silence: byte, n: nat): seq<byte> { seq(n, _ => silence) }

  function Padding(size: nat, silence: byte, pending: seq<byte>): seq<byte>
    requires |pending| <= size
  {
    Silent(silence, size - |pending|)
  }

  class Framer {
    const size: nat
    const silence: byte
    var pending: seq<byte>

    ghost predicate Valid()
      reads this
    {
      size > 0 && |pending| < size
    }

    constructor (size: nat, silence: byte)
      requires size > 0
      ensures Valid() && this.size == size && this.silence == silence && pending == []
    {
      this.size := size;
      this.silence := silence;
      pending := [];
    }

    /** The whole frames that pending and audio make; what is left of them waits. */
    method Push(audio: seq<byte>) returns (frames: seq<seq<byte>>)
      requires Valid()
      modifies this
      ensures Valid()
      ensures frames == Frames(size, old(pending) + audio)
      ensures pending == Rest(size, old(pending) + audio)
    {
      frames := [];
      if |pending| == 0 {
        assert pending + audio == audio;
        var left := audio;
        while |left| >= size
          invariant Frames(size, audio) == frames + Frames(size, left)
          invariant Rest(size, audio) == Rest(size, left)
          decreases |left|
        {
          frames := frames + [left[..size]];
          left := left[size..];
        }
        pending := pending + left;
        return;
      }
      ghost var all := pending + audio;
      pending := pending + audio;
      var offset := 0;
      while |pending| - offset >= size
        invariant 0 <= offset <= |pending| && pending == all
        invariant Frames(size, all) == frames + Frames(size, all[offset..])
        invariant Rest(size, all) == Rest(size, all[offset..])
        decreases |pending| - offset
      {
        assert all[offset..][..size] == all[offset..offset + size];
        assert all[offset..][size..] == all[offset + size..];
        frames := frames + [pending[offset..offset + size]];
        offset := offset + size;
      }
      pending := pending[offset..];
    }

    /** What waits, as one last frame filled up with silence; none if nothing waits. */
    method Flush() returns (frames: seq<seq<byte>>)
      requires Valid()
      modifies this
      ensures Valid() && pending == []
      ensures frames == if old(pending) == [] then [] else [old(pending) + Padding(size, silence, old(pending))]
    {
      if |pending| == 0 {
        return [];
      }
      var tail := pending;
      var frame := new byte[size];
      for i := 0 to |tail|
        invariant frame[..i] == tail[..i]
      {
        frame[i] := tail[i];
      }
      for i := |tail| to size
        invariant frame[..i] == tail + Silent(silence, i - |tail|)
      {
        frame[i] := silence;
      }
      assert frame[..] == frame[..size];
      frames := [frame[..]];
      pending := [];
    }

    method Reset()
      requires Valid()
      modifies this
      ensures Valid() && pending == []
    {
      pending := [];
    }
  }

  //
  // Runs.
  //

  datatype Op = Push(audio: seq<byte>) | Flush | Reset

  /** A run seen from the last flush or reset: the bytes pushed since, the frames emitted
      since and the pending tail; and every frame emitted from the start. */
  datatype Track = Track(pushed: seq<byte>, frames: seq<seq<byte>>, pending: seq<byte>, all: seq<seq<byte>>)

  function Play(size: nat, silence: byte, ops: seq<Op>): (t: Track)
    requires size > 0
    ensures |t.pending| < size
    decreases |ops|
  {
    if ops == [] then Track([], [], [], [])
    else
      var t := Play(size, silence, ops[..|ops| - 1]);
      match ops[|ops| - 1]
      case Push(audio) =>
        var cut := Frames(size, t.pending + audio);
        Track(t.pushed + audio, t.frames + cut, Rest(size, t.pending + audio), t.all + cut)
      case Flush =>
        Track([], [], [], if t.pending == [] then t.all else t.all + [t.pending + Padding(size, silence, t.pending)])
      case Reset => Track([], [], [], t.all)
  }

  lemma PushIsExact(size: nat, frames: seq<seq<byte>>, pending: seq<byte>, audio: seq<byte>)
    requires size > 0
    ensures Flatten(frames + Frames(size, pending + audio)) + Rest(size, pending + audio) ==
            (Flatten(frames) + pending) + audio
  {
    var cut, rest := Frames(size, pending + audio), Rest(size, pending + audio);
    CutIsExact(size, pending + audio);
    FlattenAppend(frames, cut);
    assert Flatten(frames) + Flatten(cut) + rest == Flatten(frames) + (Flatten(cut) + rest);
    assert Flatten(frames) + (pending + audio) == (Flatten(frames) + pending) + audio;
  }

  /** For any chunking: what was emitted since the last flush or reset, with the pending
      tail, is what was pushed; and every frame ever emitted is one frame long. */
  lemma {:induction false} FramingIsExact(size: nat, silence: byte, ops: seq<Op>)
    requires size > 0
    ensures var t := Play(size, silence, ops);
            && Flatten(t.frames) + t.pending == t.pushed
            && (forall i :: 0 <= i < |t.all| ==> |t.all[i]| == size)
    decreases |ops|
  {
    if ops != [] {
      FramingIsExact(size, silence, ops[..|ops| - 1]);
      var t := Play(size, silence, ops[..|ops| - 1]);
      match ops[|ops| - 1] {
        case Push(audio) =>
          CutIsExact(size, t.pending + audio);
          PushIsExact(size, t.frames, t.pending, audio);
        case _ =>
      }
    }
  }

  function Concat(chunks: seq<seq<byte>>): seq<byte>
    decreases |chunks|
  {
    if chunks == [] then [] else Concat(chunks[..|chunks| - 1]) + chunks[|chunks| - 1]
  }

  function Pushes(chunks: seq<seq<byte>>): seq<Op> {
    seq(|chunks|, i requires 0 <= i < |chunks| => Push(chunks[i]))
  }

  /** The frames depend on the bytes and not on how they were chunked. */
  lemma {:induction false} ChunkingDoesNotMatter(size: nat, silence: byte, chunks: seq<seq<byte>>)
    requires size > 0
    ensures var t := Play(size, silence, Pushes(chunks));
            t.all == Frames(size, Concat(chunks)) && t.pending == Rest(size, Concat(chunks))
    decreases |chunks|
  {
    if chunks != [] {
      var before := chunks[..|chunks| - 1];
      ChunkingDoesNotMatter(size, silence, before);
      assert Pushes(chunks)[..|chunks| - 1] == Pushes(before);
      CutAppend(size, Concat(before), chunks[|chunks| - 1]);
    }
  }

  /** An utterance pushed in any chunks and flushed plays whole, followed only by the
      silence that fills its last frame. */
  lemma UtterancePlaysWhole(size: nat, silence: byte, chunks: seq<seq<byte>>)
    requires size > 0
    ensures var t := Play(size, silence, Pushes(chunks) + [Flush]);
            exists pad: nat :: pad < size && Flatten(t.all) == Concat(chunks) + Silent(silence, pad)
  {
    var ops := Pushes(chunks) + [Flush];
    assert ops[..|ops| - 1] == Pushes(chunks);
    var t := Play(size, silence, Pushes(chunks));
    ChunkingDoesNotMatter(size, silence, chunks);
    CutIsExact(size, Concat(chunks));
    var pad := if t.pending == [] then 0 else size - |t.pending|;
    if t.pending != [] {
      var last := t.pending + Padding(size, silence, t.pending);
      FlattenAppend(t.all, [last]);
      assert Flatten([last]) == last + Flatten([last][1..]) == last;
    }
    assert Flatten(Play(size, silence, ops).all) == Concat(chunks) + Silent(silence, pad);
  }
}
