/** The frame decoder on arbitrary input: where every packet it holds or emits comes from. */
module DecoderSafety {
  import opened Common
  import opened Codec
  import opened CodecTheorems

  /** The bytes of the binary frames, in arrival order. */
  function Blobs(fs: seq<Arrival>): seq<Blob> {
    if fs == [] then []
    else Blobs(fs[..|fs| - 1]) + if fs[|fs| - 1].Binary? then [fs[|fs| - 1].b] else []
  }

  /** A text frame that Add refuses, leaving the partial packet alone. */
  ghost predicate Bad(a: Arrival) {
    a.Text? && (a.r.Err? || |a.r.value.buffer| != a.r.value.attachments)
  }

  function Open(n: nat): seq<Option<Blob>> {
    seq(n, _ => None)
  }

  /**
   * `p` was announced by the text frame before `later`; every later frame is binary or was
   * refused, and the binary ones fill its slots in arrival order while the other slots are open.
   */
  ghost predicate BuiltFrom(text: Arrival, later: seq<Arrival>, p: Packet<Incoming>) {
    && text.Text? && !Bad(text)
    && (forall k | 0 <= k < |later| :: later[k].Binary? || Bad(later[k]))
    && var p0 := text.r.value;
    && var m := |Blobs(later)|;
    && m <= p0.attachments
    && p == p0.(attachments := p0.attachments - m, buffer := Slots(Blobs(later)) + Open(p0.attachments - m))
  }

  /** Some frame of the history announced `p` and the rest of the history built it. */
  ghost predicate Origin(fs: seq<Arrival>, p: Packet<Incoming>) {
    exists i | 0 <= i < |fs| :: BuiltFrom(fs[i], fs[i + 1..], p)
  }

  ghost predicate Fair(fs: seq<Arrival>) {
    forall i | 0 <= i < |fs| :: fs[i].Text? ==> SlotsEmpty(fs[i].r)
  }

  /** The partial packet after a history of frames, starting from a fresh decoder. */
  function LastAfter(fs: seq<Arrival>): (r: Option<Packet<Incoming>>)
    requires Fair(fs)
    ensures Sound(r)
  {
    if fs == [] then None else
      var before := LastAfter(fs[..|fs| - 1]);
      HandleSound(before, fs[|fs| - 1]);
      Handle(before, fs[|fs| - 1]).0
  }

  /** The output of the last frame of a history. */
  function LastOutput(fs: seq<Arrival>): Output
    requires Fair(fs) && fs != []
  {
    Handle(LastAfter(fs[..|fs| - 1]), fs[|fs| - 1]).1
  }

  lemma FillOne(p0: Packet<Incoming>, bs: seq<Blob>, b: Blob)
    requires |bs| < p0.attachments
    ensures var n := p0.attachments;
      (Slots(bs) + Open(n - |bs|))[|bs| := Some(b)] == Slots(bs + [b]) + Open(n - |bs| - 1)
  {
  }

  /** One more frame keeps the account of a partial packet, and of the packet it completes. */
  lemma BuiltStep(text: Arrival, later: seq<Arrival>, p: Packet<Incoming>, b: Blob)
    requires BuiltFrom(text, later, p) && p.attachments > 0
    ensures BuiltFrom(text, later + [Binary(b)],
      p.(buffer := p.buffer[|p.buffer| - p.attachments := Some(b)], attachments := p.attachments - 1))
  {
    var next := later + [Binary(b)];
    assert next[..|next| - 1] == later;
    FillOne(text.r.value, Blobs(later), b);
  }

  lemma BuiltSkip(text: Arrival, later: seq<Arrival>, p: Packet<Incoming>, bad: Arrival)
    requires BuiltFrom(text, later, p) && Bad(bad)
    ensures BuiltFrom(text, later + [bad], p)
  {
    var next := later + [bad];
    assert next[..|next| - 1] == later;
  }

  lemma BuiltStart(text: Arrival)
    requires text.Text? && !Bad(text) && SlotsEmpty(text.r)
    ensures BuiltFrom(text, [], text.r.value)
  {
    var p0 := text.r.value;
    assert p0.buffer == Slots([]) + Open(p0.attachments);
  }

  lemma OriginText(fs: seq<Arrival>, text: Arrival)
    requires text.Text? && !Bad(text) && SlotsEmpty(text.r)
    ensures Origin(fs + [text], text.r.value)
  {
    BuiltStart(text);
    var all, n := fs + [text], |fs|;
    assert all[n] == text && all[n + 1..] == [];
  }

  lemma OriginBinary(fs: seq<Arrival>, p: Packet<Incoming>, b: Blob)
    requires Origin(fs, p) && p.attachments > 0
    ensures |p.buffer| >= p.attachments
    ensures Origin(fs + [Binary(b)],
      p.(buffer := p.buffer[|p.buffer| - p.attachments := Some(b)], attachments := p.attachments - 1))
  {
    var i :| 0 <= i < |fs| && BuiltFrom(fs[i], fs[i + 1..], p);
    BuiltStep(fs[i], fs[i + 1..], p, b);
    var all := fs + [Binary(b)];
    assert all[i] == fs[i] && all[i + 1..] == fs[i + 1..] + [Binary(b)];
  }

  lemma OriginBad(fs: seq<Arrival>, p: Packet<Incoming>, bad: Arrival)
    requires Origin(fs, p) && Bad(bad)
    ensures Origin(fs + [bad], p)
  {
    var i :| 0 <= i < |fs| && BuiltFrom(fs[i], fs[i + 1..], p);
    BuiltSkip(fs[i], fs[i + 1..], p, bad);
    var all := fs + [bad];
    assert all[i] == fs[i] && all[i + 1..] == fs[i + 1..] + [bad];
  }

  /** A partial packet still waits for a slot and has an origin in the history. */
  ghost predicate Waits(fs: seq<Arrival>, lastp: Option<Packet<Incoming>>) {
    lastp.Some? ==> 0 < lastp.value.attachments && Origin(fs, lastp.value)
  }

  /** An emitted packet is complete and has an origin in the history. */
  ghost predicate Whole(fs: seq<Arrival>, out: Output) {
    out.Emitted? ==> Complete(out.p) && Origin(fs, out.p)
  }

  /** For every history of frames, of any content. */
  lemma {:induction false} Provenance(fs: seq<Arrival>)
    requires Fair(fs)
    ensures Waits(fs, LastAfter(fs))
    ensures fs != [] ==> Whole(fs, LastOutput(fs))
    decreases |fs|
  {
    if fs != [] {
      var n := |fs| - 1;
      var before, a := fs[..n], fs[n];
      Provenance(before);
      assert fs == before + [a];
      HandleProvenance(before, LastAfter(before), a);
    }
  }

  /** One more frame, after a history that accounts for the partial packet. */
  lemma HandleProvenance(fs: seq<Arrival>, last: Option<Packet<Incoming>>, a: Arrival)
    requires Sound(last) && Waits(fs, last) && (a.Text? ==> SlotsEmpty(a.r))
    ensures Waits(fs + [a], Handle(last, a).0) && Whole(fs + [a], Handle(last, a).1)
  {
    HandleSound(last, a);
    if a.Binary? {
      if last.Some? { OriginBinary(fs, last.value, a.b); }
    } else if Bad(a) {
      if last.Some? { OriginBad(fs, last.value, a); }
    } else {
      OriginText(fs, a);
    }
  }

  function Arrivals(lib: Lib, fs: seq<Frame>): (r: seq<Arrival>)
    ensures |r| == |fs| && Fair(r) && forall i | 0 <= i < |fs| :: r[i] == Arrive(lib, fs[i])
  {
    seq(|fs|, i requires 0 <= i < |fs| => Arrive(lib, fs[i]))
  }

  lemma FeedSnoc(lib: Lib, fs: seq<Frame>, f: Frame)
    ensures var (last, outs) := Feed(lib, None, fs);
      Feed(lib, None, fs + [f]) == (Step(lib, last, f).0, outs + [Step(lib, last, f).1])
  {
    var (last, outs) := Feed(lib, None, fs);
    FeedAppend(lib, None, fs, [f]);
    FeedHead(lib, last, f, [], Step(lib, last, f).0, Step(lib, last, f).1);
    assert [f] + [] == [f] && [Step(lib, last, f).1] + [] == [Step(lib, last, f).1];
  }

  lemma HistorySnoc(lib: Lib, fs: seq<Frame>, f: Frame)
    ensures LastAfter(Arrivals(lib, fs + [f])) == Step(lib, LastAfter(Arrivals(lib, fs)), f).0
    ensures LastOutput(Arrivals(lib, fs + [f])) == Step(lib, LastAfter(Arrivals(lib, fs)), f).1
  {
    var all := Arrivals(lib, fs + [f]);
    assert all[..|all| - 1] == Arrivals(lib, fs);
  }

  /** Feeding frames one by one goes through exactly these histories. */
  lemma {:induction false} FeedIsHistory(lib: Lib, fs: seq<Frame>, j: nat)
    ensures Feed(lib, None, fs).0 == LastAfter(Arrivals(lib, fs))
    ensures j < |fs| ==> Feed(lib, None, fs).1[j] == LastOutput(Arrivals(lib, fs[..j + 1]))
    decreases |fs|
  {
    if fs != [] {
      var n := |fs| - 1;
      var before := fs[..n];
      assert fs == before + [fs[n]];
      FeedSnoc(lib, before, fs[n]);
      HistorySnoc(lib, before, fs[n]);
      FeedIsHistory(lib, before, j);
      if j < n {
        assert before[..j + 1] == fs[..j + 1];
      } else if j == n {
        assert fs[..j + 1] == fs;
      }
    }
  }

  /**
   * Safety for any frames at all: what Feed leaves unfinished still waits for a slot and has an
   * origin among the frames; what it emits at frame j is complete and has one up to frame j.
   */
  lemma FeedProvenance(lib: Lib, fs: seq<Frame>, j: nat)
    requires j < |fs|
    ensures var (last, outs) := Feed(lib, None, fs);
      Waits(Arrivals(lib, fs), last) && Whole(Arrivals(lib, fs[..j + 1]), outs[j])
  {
    FeedIsHistory(lib, fs, j);
    Provenance(Arrivals(lib, fs));
    Provenance(Arrivals(lib, fs[..j + 1]));
  }
}
