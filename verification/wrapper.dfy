/** The styled-value wrappers `FgColorDisplay` and `BgColorDisplay`: to
    format one, write the colour's constant, then let the wrapped value
    format itself into the same formatter, then write the reset sequence,
    returning at the first write that fails. */
module Wrapper {
  import opened Sgr
  import Registry

  /** `fmt::Result`: the error carries no information. */
  datatype FmtResult = Ok | Err

  /** The formatter's output sink: the text it has accepted so far and every
      `write_str` call made on it, in order. */
  datatype Sink = Sink(out: string, attempts: seq<string>)

  /** Whether the sink refuses a write, given every call made on it so far
      up to and including that write. */
  type Refusal = seq<string> -> bool

  datatype Outcome = Outcome(sink: Sink, result: FmtResult)

  /** How the wrapped value formats itself, `<T as Trait>::fmt(&self.0, f)`:
      any run over the sink, which may make any calls, go on after a refused
      write, or return the error without one. */
  type Formatter = (Sink, Refusal) -> Outcome

  /** `b` is `a` with calls and text only added at the end. */
  predicate Grows(a: Sink, b: Sink) {
    a.out <= b.out && a.attempts <= b.attempts
  }

  /** A formatter only adds to the sink: a `Formatter` can write, never
      take back what was written. */
  ghost predicate Appends(f: Formatter) {
    forall s: Sink, refuses: Refusal :: Grows(s, f(s, refuses).sink)
  }

  /** One kind of wrapped value: it writes chunks, each followed by `?`, and
      returns its own result once they are all written. */
  datatype Inner = Inner(chunks: seq<string>, verdict: FmtResult)

  /** Which constant the wrapper writes: `FgColorDisplay` writes `ANSI_FG`,
      `BgColorDisplay` writes `ANSI_BG`. */
  datatype Layer = Fg | Bg

  /** A wrapped value with its colour. */
  datatype Styled = Styled(layer: Layer, color: Registry.Color, value: Formatter)

  /** The concatenation of a list of chunks. */
  function Concat(chunks: seq<string>): string {
    if |chunks| == 0 then "" else chunks[0] + Concat(chunks[1..])
  }

  /** The first `n` writes of `chunks`, made after `before`, are all accepted. */
  predicate Accepted(before: seq<string>, refuses: Refusal, chunks: seq<string>, n: nat)
    requires n <= |chunks|
  {
    forall j :: 0 < j <= n ==> !refuses(before + chunks[..j])
  }

  /** `Formatter::write_str`. A refused write adds nothing to the output. */
  function WriteStr(s: Sink, refuses: Refusal, chunk: string): Outcome {
    var attempts := s.attempts + [chunk];
    if refuses(attempts) then Outcome(Sink(s.out, attempts), Err)
    else Outcome(Sink(s.out + chunk, attempts), Ok)
  }

  /** Writes the chunks in order, returning at the first refusal. */
  function WriteAll(s: Sink, refuses: Refusal, chunks: seq<string>): Outcome
    decreases |chunks|
  {
    if |chunks| == 0 then Outcome(s, Ok)
    else
      var first := WriteStr(s, refuses, chunks[0]);
      if first.result == Err then first
      else WriteAll(first.sink, refuses, chunks[1..])
  }

  /** The run of a chunk-writing wrapped value. */
  function FmtInner(value: Inner, s: Sink, refuses: Refusal): Outcome {
    var written := WriteAll(s, refuses, value.chunks);
    if written.result == Err then written
    else Outcome(written.sink, value.verdict)
  }

  /** A chunk-writing wrapped value as a formatter. */
  function Chunks(value: Inner): Formatter {
    (s: Sink, refuses: Refusal) => FmtInner(value, s, refuses)
  }

  /** The constant the wrapper opens with. */
  function Code(st: Styled): string {
    match st.layer
    case Fg => Registry.AnsiFg(st.color)
    case Bg => Registry.AnsiBg(st.color)
  }

  /** The body of `fmt`, for any opening constant `code`: write `code`, let
      the wrapped value format itself, write the reset sequence, each step
      followed by `?`. */
  function Wrap(code: string, value: Formatter, s: Sink, refuses: Refusal): Outcome {
    var colored := WriteStr(s, refuses, code);
    if colored.result == Err then colored
    else
      var inner := value(colored.sink, refuses);
      if inner.result == Err then inner
      else WriteStr(inner.sink, refuses, Reset)
  }

  /** The wrapper's `fmt`: `Wrap` with the colour's constant. */
  function Fmt(st: Styled, s: Sink, refuses: Refusal): Outcome {
    Wrap(Code(st), st.value, s, refuses)
  }

  /** Every write a successful `Wrap` around a chunk-writing value makes,
      in order. */
  function Plan(code: string, value: Inner): seq<string> {
    [code] + value.chunks + [Reset]
  }

  lemma {:induction false} ConcatAppend(a: seq<string>, b: seq<string>)
    ensures Concat(a + b) == Concat(a) + Concat(b)
  {
    if |a| > 0 {
      assert (a + b)[1..] == a[1..] + b;
      ConcatAppend(a[1..], b);
    } else {
      assert a + b == b;
    }
  }

  /** Acceptance of the first `k + 1` writes is acceptance of the first
      write and then of the next `k`. */
  lemma AcceptedCons(before: seq<string>, refuses: Refusal, chunks: seq<string>, k: nat)
    requires k < |chunks|
    ensures Accepted(before, refuses, chunks, k + 1)
        <==> !refuses(before + [chunks[0]]) && Accepted(before + [chunks[0]], refuses, chunks[1..], k)
  {
    forall j | 0 <= j <= k
      ensures before + chunks[..j + 1] == (before + [chunks[0]]) + chunks[1..][..j]
    {
      assert chunks[..j + 1] == [chunks[0]] + chunks[1..][..j];
    }
    assert chunks[..1] == [chunks[0]];
    if !refuses(before + [chunks[0]]) && Accepted(before + [chunks[0]], refuses, chunks[1..], k) {
      forall j | 0 < j <= k + 1
        ensures !refuses(before + chunks[..j])
      {
        if j > 1 {
          assert before + chunks[..j] == (before + [chunks[0]]) + chunks[1..][..j - 1];
        }
      }
    }
  }

  /** The text of the first `k + 1` chunks is the first chunk followed by
      the text of the next `k`. */
  lemma ConcatCons(chunks: seq<string>, k: nat)
    requires k < |chunks|
    ensures Concat(chunks[..k + 1]) == chunks[0] + Concat(chunks[1..][..k])
  {
    assert chunks[..k + 1] == [chunks[0]] + chunks[1..][..k];
    ConcatAppend([chunks[0]], chunks[1..][..k]);
    assert Concat([chunks[0]]) == chunks[0] + Concat([]);
  }

  /** The calls a write of a list of chunks makes are a prefix of it. */
  lemma {:induction false} WriteAllTrace(s: Sink, refuses: Refusal, chunks: seq<string>)
    ensures var o := WriteAll(s, refuses, chunks);
      var n := |o.sink.attempts| - |s.attempts|;
      0 <= n <= |chunks| && o.sink.attempts == s.attempts + chunks[..n]
    decreases |chunks|
  {
    if |chunks| > 0 {
      var first := WriteStr(s, refuses, chunks[0]);
      assert chunks[..1] == [chunks[0]];
      if first.result == Ok {
        var o := WriteAll(first.sink, refuses, chunks[1..]);
        WriteAllTrace(first.sink, refuses, chunks[1..]);
        var m := |o.sink.attempts| - |first.sink.attempts|;
        assert chunks[..m + 1] == [chunks[0]] + chunks[1..][..m];
      }
    }
  }

  /** A write of a list of chunks succeeds exactly when every write is
      accepted, and then appends their concatenation. */
  lemma {:induction false} WriteAllSucceeds(s: Sink, refuses: Refusal, chunks: seq<string>)
    ensures var o := WriteAll(s, refuses, chunks);
      && (o.result == Ok <==> Accepted(s.attempts, refuses, chunks, |chunks|))
      && (o.result == Ok ==> o.sink.attempts == s.attempts + chunks && o.sink.out == s.out + Concat(chunks))
    decreases |chunks|
  {
    if |chunks| > 0 {
      var first := WriteStr(s, refuses, chunks[0]);
      var rest := chunks[1..];
      AcceptedCons(s.attempts, refuses, chunks, |rest|);
      assert chunks[..|chunks|] == chunks && rest[..|rest|] == rest;
      if first.result == Ok {
        WriteAllSucceeds(first.sink, refuses, rest);
        ConcatCons(chunks, |rest|);
        assert chunks == [chunks[0]] + rest;
      }
    }
  }

  /** A write of a list of chunks that fails stops at the first refused
      write, keeping only the text of the writes before it. */
  lemma {:induction false} WriteAllFails(s: Sink, refuses: Refusal, chunks: seq<string>)
    ensures var o := WriteAll(s, refuses, chunks);
      var n := |o.sink.attempts| - |s.attempts|;
      o.result == Err ==>
        && 0 < n <= |chunks|
        && Accepted(s.attempts, refuses, chunks, n - 1)
        && refuses(o.sink.attempts)
        && o.sink.out == s.out + Concat(chunks[..n - 1])
    decreases |chunks|
  {
    if |chunks| > 0 {
      var first := WriteStr(s, refuses, chunks[0]);
      if first.result == Err {
        assert Concat(chunks[..0]) == "";
      } else {
        var rest := chunks[1..];
        var o := WriteAll(first.sink, refuses, rest);
        WriteAllFails(first.sink, refuses, rest);
        var m := |o.sink.attempts| - |first.sink.attempts|;
        if o.result == Err {
          AcceptedCons(s.attempts, refuses, chunks, m - 1);
          ConcatCons(chunks, m - 1);
        }
      }
    }
  }

  /** Writing a list of chunks either succeeds, having made every write and
      appended their concatenation, or fails at the first refused write,
      having made no write after it and kept only what came before it. */
  lemma WriteAllOutcome(s: Sink, refuses: Refusal, chunks: seq<string>)
    ensures var o := WriteAll(s, refuses, chunks);
      var n := |o.sink.attempts| - |s.attempts|;
      && 0 <= n <= |chunks|
      && o.sink.attempts == s.attempts + chunks[..n]
      && (o.result == Ok <==> Accepted(s.attempts, refuses, chunks, |chunks|))
      && (o.result == Ok ==> n == |chunks| && o.sink.out == s.out + Concat(chunks))
      && (o.result == Err ==> 0 < n && Accepted(s.attempts, refuses, chunks, n - 1)
                              && refuses(o.sink.attempts)
                              && o.sink.out == s.out + Concat(chunks[..n - 1]))
  {
    WriteAllTrace(s, refuses, chunks);
    WriteAllSucceeds(s, refuses, chunks);
    WriteAllFails(s, refuses, chunks);
  }

  /** Writing `a + b` is writing `a`, then, if that succeeded, writing `b`. */
  lemma {:induction false} WriteAllSplit(s: Sink, refuses: Refusal, a: seq<string>, b: seq<string>)
    ensures var first := WriteAll(s, refuses, a);
      WriteAll(s, refuses, a + b) == if first.result == Err then first else WriteAll(first.sink, refuses, b)
    decreases |a|
  {
    if |a| > 0 {
      assert (a + b)[0] == a[0];
      assert (a + b)[1..] == a[1..] + b;
      var w := WriteStr(s, refuses, a[0]);
      if w.result == Ok {
        WriteAllSplit(w.sink, refuses, a[1..], b);
      }
    } else {
      assert a + b == b;
    }
  }

  /** Acceptance of the first `k` writes depends only on those writes. */
  lemma AcceptedPrefix(before: seq<string>, refuses: Refusal, a: seq<string>, b: seq<string>, k: nat)
    requires k <= |a| <= |b| && a == b[..|a|]
    ensures Accepted(before, refuses, a, k) <==> Accepted(before, refuses, b, k)
  {
    forall j | 0 < j <= k
      ensures a[..j] == b[..j]
    {
    }
  }

  /** The nested `?` chain writes the same as one flat list of writes that
      stops at the first refusal: when the wrapped value succeeds, `Wrap`
      is writing `Plan(code, value)`. */
  lemma WrapIsPlan(code: string, value: Inner, s: Sink, refuses: Refusal)
    requires value.verdict == Ok
    ensures Wrap(code, Chunks(value), s, refuses) == WriteAll(s, refuses, Plan(code, value))
  {
    WriteAllSplit(s, refuses, [code], value.chunks + [Reset]);
    assert Plan(code, value) == [code] + (value.chunks + [Reset]);
    var colored := WriteStr(s, refuses, code);
    assert [code][1..] == [];
    if colored.result == Ok {
      WriteAllSplit(colored.sink, refuses, value.chunks, [Reset]);
      var inner := WriteAll(colored.sink, refuses, value.chunks);
      if inner.result == Ok {
        assert [Reset][1..] == [];
      }
    }
  }

  /** When the wrapped value returns the error, `Wrap` is writing `code`
      and the chunks, and never the reset sequence. */
  lemma WrapInnerErr(code: string, value: Inner, s: Sink, refuses: Refusal)
    requires value.verdict == Err
    ensures Wrap(code, Chunks(value), s, refuses) == var w := WriteAll(s, refuses, [code] + value.chunks);
      Outcome(w.sink, Err)
  {
    WriteAllSplit(s, refuses, [code], value.chunks);
    assert [code][1..] == [];
  }

  /** `Wrap` succeeds exactly when the wrapped value does and the sink
      accepts every write, and then the output gains `code`, the wrapped
      value's text and the reset sequence, and nothing else. */
  lemma WrapOutput(code: string, value: Inner, s: Sink, refuses: Refusal)
    ensures var o := Wrap(code, Chunks(value), s, refuses);
      var plan := Plan(code, value);
      && (o.result == Ok <==> value.verdict == Ok && Accepted(s.attempts, refuses, plan, |plan|))
      && (o.result == Ok ==> o.sink.out == s.out + code + Concat(value.chunks) + Reset)
      && (o.result == Ok ==> o.sink.attempts == s.attempts + plan)
  {
    if value.verdict == Ok {
      WrapIsPlan(code, value, s, refuses);
      WriteAllOutcome(s, refuses, Plan(code, value));
      ConcatAppend([code] + value.chunks, [Reset]);
      ConcatAppend([code], value.chunks);
      assert Concat([code]) == code + Concat([]);
      assert Concat([Reset]) == Reset + Concat([]);
    }
  }

  /** The failure facts `WrapStops` states about the outcome `o` of a `Wrap`
      into `s` whose successful run would write `plan`. */
  predicate StopsAtFailure(plan: seq<string>, verdict: FmtResult, s: Sink, refuses: Refusal, o: Outcome) {
    var n := |o.sink.attempts| - |s.attempts|;
    o.result == Err ==>
      && 0 < n <= |plan|
      && o.sink.attempts == s.attempts + plan[..n]
      && Accepted(s.attempts, refuses, plan, n - 1)
      && o.sink.out == s.out + Concat(plan[..n - 1]) + (if refuses(o.sink.attempts) then "" else plan[n - 1])
      && (refuses(o.sink.attempts) || (verdict == Err && n == |plan| - 1))
  }

  /** When `Wrap` fails, the error is returned and nothing is written after
      the failure: the calls made are a prefix of the plan ending either in
      the refused write or, when the wrapped value itself returned the
      error, in its last chunk, so the reset sequence is never attempted. */
  lemma WrapStops(code: string, value: Inner, s: Sink, refuses: Refusal)
    ensures StopsAtFailure(Plan(code, value), value.verdict, s, refuses, Wrap(code, Chunks(value), s, refuses))
  {
    if value.verdict == Ok {
      OkVerdictStops(code, value, s, refuses);
    } else {
      InnerErrStops(code, value, s, refuses);
    }
  }

  lemma OkVerdictStops(code: string, value: Inner, s: Sink, refuses: Refusal)
    requires value.verdict == Ok
    ensures StopsAtFailure(Plan(code, value), value.verdict, s, refuses, Wrap(code, Chunks(value), s, refuses))
  {
    WrapIsPlan(code, value, s, refuses);
    WriteAllOutcome(s, refuses, Plan(code, value));
  }

  lemma InnerErrStops(code: string, value: Inner, s: Sink, refuses: Refusal)
    requires value.verdict == Err
    ensures StopsAtFailure(Plan(code, value), value.verdict, s, refuses, Wrap(code, Chunks(value), s, refuses))
  {
    var plan := Plan(code, value);
    var pre := [code] + value.chunks;
    var w := WriteAll(s, refuses, pre);
    WrapInnerErr(code, value, s, refuses);
    assert plan == pre + [Reset];
    WriteAllOutcome(s, refuses, pre);
    if w.result == Err {
      RefusedWithinPrefix(s, refuses, pre, plan, w.sink);
    } else {
      CompletedPrefix(s, refuses, pre, plan, w.sink);
    }
  }

  /** The sink once the constant `code` has been accepted. */
  function Entered(s: Sink, code: string): Sink {
    Sink(s.out + code, s.attempts + [code])
  }

  /** For any wrapped value that only adds to the sink, `Wrap` succeeds
      exactly when the sink accepts `code`, the wrapped value's own run then
      succeeds, and the sink accepts the reset sequence after it. On success
      the output is the old output, `code`, the text the wrapped value
      added and the reset sequence; the calls are `code`, the wrapped
      value's own calls and the reset sequence. */
  lemma WrapAccepts(code: string, value: Formatter, s: Sink, refuses: Refusal)
    requires Appends(value)
    ensures var o := Wrap(code, value, s, refuses);
      var e := Entered(s, code);
      var i := value(e, refuses);
      && Grows(e, i.sink)
      && (o.result == Ok <==> !refuses(e.attempts) && i.result == Ok && !refuses(i.sink.attempts + [Reset]))
      && (o.result == Ok ==> o.sink.out == s.out + code + i.sink.out[|e.out|..] + Reset)
      && (o.result == Ok ==> o.sink.attempts == s.attempts + [code] + i.sink.attempts[|e.attempts|..] + [Reset])
  {
    var e := Entered(s, code);
    var i := value(e, refuses);
    assert Grows(e, i.sink);
    assert i.sink.out == e.out + i.sink.out[|e.out|..];
    assert i.sink.attempts == e.attempts + i.sink.attempts[|e.attempts|..];
  }

  /** For any wrapped value, no call follows a failure. When the sink
      refuses `code`, that was the only call. When the wrapped value returns
      the error, `Wrap` returns its outcome with nothing added. The reset
      sequence is attempted only after `code` was accepted and the wrapped
      value succeeded, as the last call, and the result is the error
      exactly when the sink refused it. */
  lemma WrapHalts(code: string, value: Formatter, s: Sink, refuses: Refusal)
    ensures var o := Wrap(code, value, s, refuses);
      var e := Entered(s, code);
      var i := value(e, refuses);
      && (refuses(e.attempts) ==> o == Outcome(Sink(s.out, e.attempts), Err))
      && (!refuses(e.attempts) && i.result == Err ==> o == i)
      && (!refuses(e.attempts) && i.result == Ok ==>
            && o.sink.attempts == i.sink.attempts + [Reset]
            && (o.result == Err <==> refuses(o.sink.attempts))
            && o.sink.out == i.sink.out + (if o.result == Ok then Reset else ""))
  {
  }

  /** A chunk-writing wrapped value only adds to the sink. */
  lemma ChunksAppend(value: Inner)
    ensures Appends(Chunks(value))
  {
    forall s: Sink, refuses: Refusal
      ensures Grows(s, Chunks(value)(s, refuses).sink)
    {
      var w := WriteAll(s, refuses, value.chunks);
      WriteAllOutcome(s, refuses, value.chunks);
      assert Chunks(value)(s, refuses).sink == w.sink;
      if w.result == Ok {
        assert w.sink.out == s.out + Concat(value.chunks);
      } else {
        var n := |w.sink.attempts| - |s.attempts|;
        assert w.sink.out == s.out + Concat(value.chunks[..n - 1]);
      }
    }
  }

  /** The wrapper's `fmt`, for any wrapped value that only adds to the sink,
      succeeds exactly when the sink accepts `ANSI_FG` or `ANSI_BG`, the
      wrapped value then succeeds, and the sink accepts `ESC[0m`. The output
      is then the constant, the wrapped value's text and `ESC[0m`. */
  lemma FmtOutput(st: Styled, s: Sink, refuses: Refusal)
    requires Appends(st.value)
    ensures var o := Fmt(st, s, refuses);
      var e := Entered(s, Code(st));
      var i := st.value(e, refuses);
      && (o.result == Ok <==> !refuses(e.attempts) && i.result == Ok && !refuses(i.sink.attempts + [Reset]))
      && (o.result == Ok ==> o.sink.out == s.out + Code(st) + i.sink.out[|e.out|..] + Reset)
      && (o.result == Ok ==> o.sink.attempts == s.attempts + [Code(st)] + i.sink.attempts[|e.attempts|..] + [Reset])
  {
    WrapAccepts(Code(st), st.value, s, refuses);
  }

  /** When the wrapper's `fmt` meets a refused write or an error from the
      wrapped value, it returns the error at once and makes no further
      call. */
  lemma FmtStopsAtFailure(st: Styled, s: Sink, refuses: Refusal)
    ensures var o := Fmt(st, s, refuses);
      var e := Entered(s, Code(st));
      var i := st.value(e, refuses);
      && (refuses(e.attempts) ==> o == Outcome(Sink(s.out, e.attempts), Err))
      && (!refuses(e.attempts) && i.result == Err ==> o == i)
      && (!refuses(e.attempts) && i.result == Ok ==>
            && o.sink.attempts == i.sink.attempts + [Reset]
            && (o.result == Err <==> refuses(o.sink.attempts)))
  {
    WrapHalts(Code(st), st.value, s, refuses);
  }

  /** A write of `pre` refused at its `n`th write is, in the same terms, a
      write of any longer `plan` refused at its `n`th write. */
  lemma RefusedWithinPrefix(s: Sink, refuses: Refusal, pre: seq<string>, plan: seq<string>, t: Sink)
    requires |pre| <= |plan| && pre == plan[..|pre|]
    requires var n := |t.attempts| - |s.attempts|;
      && 0 < n <= |pre| && t.attempts == s.attempts + pre[..n]
      && Accepted(s.attempts, refuses, pre, n - 1)
      && t.out == s.out + Concat(pre[..n - 1])
    ensures var n := |t.attempts| - |s.attempts|;
      && t.attempts == s.attempts + plan[..n]
      && Accepted(s.attempts, refuses, plan, n - 1)
      && t.out == s.out + Concat(plan[..n - 1])
  {
    var n := |t.attempts| - |s.attempts|;
    assert pre[..n] == plan[..n];
    assert pre[..n - 1] == plan[..n - 1];
    AcceptedPrefix(s.attempts, refuses, pre, plan, n - 1);
  }

  /** A completed write of a non-empty `pre` is, in terms of any longer
      `plan`, a write of its first `|pre|` entries, the last one accepted. */
  lemma CompletedPrefix(s: Sink, refuses: Refusal, pre: seq<string>, plan: seq<string>, t: Sink)
    requires 0 < |pre| <= |plan| && pre == plan[..|pre|]
    requires Accepted(s.attempts, refuses, pre, |pre|)
    requires t.attempts == s.attempts + pre && t.out == s.out + Concat(pre)
    ensures var n := |pre|;
      && t.attempts == s.attempts + plan[..n]
      && Accepted(s.attempts, refuses, plan, n - 1)
      && !refuses(t.attempts)
      && t.out == s.out + Concat(plan[..n - 1]) + plan[n - 1]
  {
    var n := |pre|;
    assert t.attempts == s.attempts + plan[..n] by {
      assert pre[..n] == pre;
    }
    assert !refuses(t.attempts) by {
      assert pre[..n] == pre;
      assert !refuses(s.attempts + pre[..n]);
    }
    assert Accepted(s.attempts, refuses, plan, n - 1) by {
      AcceptedShorter(s.attempts, refuses, pre, n - 1, n);
      AcceptedPrefix(s.attempts, refuses, pre, plan, n - 1);
    }
    assert t.out == s.out + Concat(plan[..n - 1]) + plan[n - 1] by {
      assert pre[..n - 1] == plan[..n - 1];
      ConcatLast(pre);
    }
  }

  /** Acceptance of the first `m` writes includes acceptance of the first
      `k` for every `k` up to `m`. */
  lemma AcceptedShorter(before: seq<string>, refuses: Refusal, chunks: seq<string>, k: nat, m: nat)
    requires k <= m <= |chunks|
    requires Accepted(before, refuses, chunks, m)
    ensures Accepted(before, refuses, chunks, k)
  {
  }

  /** The concatenation of a non-empty list ends with its last chunk. */
  lemma ConcatLast(chunks: seq<string>)
    requires |chunks| > 0
    ensures Concat(chunks) == Concat(chunks[..|chunks| - 1]) + chunks[|chunks| - 1]
  {
    var last := chunks[|chunks| - 1];
    assert chunks == chunks[..|chunks| - 1] + [last];
    ConcatAppend(chunks[..|chunks| - 1], [last]);
    assert Concat([last]) == last;
  }
}
