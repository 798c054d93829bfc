/** One text attempt of the generation callback: chunked prefill, then the
    sampling loop that holds back runs of vocab[0] pieces. The tokenizer, the
    sampler and the decoder are arbitrary. */
module Generation {
  import opened Base

  datatype Slot = Slot(token: int, pos: nat, logits: bool)

  /** What the k-th sampling step yields. */
  datatype Sample = EndOfText | BadPiece | Piece(token: int, text: string)

  datatype Outcome = PromptTooLong | PrefillFailed | DecodeFailed | PieceFailed | Collapsed | Completed

  predicate AllBangs(s: string) { forall i :: 0 <= i < |s| ==> s[i] == '!' }

  predicate IsVocabZero(s: Sample)
    requires s.Piece?
  {
    s.token == 0 || (s.text != "" && AllBangs(s.text))
  }

  function BumpVocabZeroRun(s: Sample, run: nat): (nat, bool)
    requires s.Piece?
  {
    var next := if IsVocabZero(s) then run + 1 else 0;
    (next, next >= 8)
  }

  ghost function Text(samples: seq<Sample>): string
    requires forall i :: 0 <= i < |samples| ==> samples[i].Piece?
  {
    if samples == [] then "" else Text(samples[..|samples| - 1]) + samples[|samples| - 1].text
  }

  ghost predicate Pieces(samples: seq<Sample>) { forall i :: 0 <= i < |samples| ==> samples[i].Piece? }

  /** The prompt as the decoder must see it: every token once, in order, at its
      own position, logits on the last one only. */
  ghost function PromptSlots(prompt: seq<int>): seq<Slot>
  {
    seq(|prompt|, i requires 0 <= i < |prompt| => Slot(prompt[i], i, i + 1 == |prompt|))
  }

  /** A sample that says nothing: the first vocabulary entry, or bangs only. */
  ghost predicate Filler(s: Sample)
    requires s.Piece?
  {
    s.token == 0 || (|s.text| > 0 && forall c :: c in s.text ==> c == '!')
  }

  lemma BumpMeans(s: Sample, run: nat)
    requires s.Piece?
    ensures BumpVocabZeroRun(s, run) == if Filler(s) then (run + 1, run >= 7) else (0, false)
  {
    assert forall i :: 0 <= i < |s.text| ==> s.text[i] in s.text;
  }

  /** The last `run` samples are filler, and the one before is not. */
  ghost predicate EndsInRun(samples: seq<Sample>, run: nat)
    requires Pieces(samples)
  {
    && run <= |samples|
    && (forall i :: |samples| - run <= i < |samples| ==> Filler(samples[i]))
    && (run < |samples| ==> !Filler(samples[|samples| - run - 1]))
  }

  method FillBatch(prompt: seq<int>, start: nat, end: nat) returns (batch: seq<Slot>)
    requires start <= end <= |prompt|
    ensures batch == PromptSlots(prompt)[start..end]
  {
    batch := [];
    var pos := start;
    while pos < end
      invariant start <= pos <= end
      invariant batch == PromptSlots(prompt)[start..pos]
    {
      batch := batch + [Slot(prompt[pos], pos, pos + 1 == |prompt|)];
      pos := pos + 1;
    }
  }

  method Prefill(prompt: seq<int>, chunk: nat, decodeOk: nat -> bool) returns (ok: bool, batches: seq<seq<Slot>>)
    requires chunk > 0
    ensures forall b :: b in batches ==> 0 < |b| <= chunk
    ensures forall k :: 0 <= k < |batches| - 1 ==> |batches[k]| == chunk
    ensures Concat(batches) <= PromptSlots(prompt)
    ensures ok ==> Concat(batches) == PromptSlots(prompt)
    ensures ok <==> forall k: nat :: k < |batches| ==> decodeOk(k)
  {
    batches := [];
    var i := 0;
    while i < |prompt|
      invariant 0 <= i <= |prompt|
      invariant Concat(batches) == PromptSlots(prompt)[..i]
      invariant forall k :: 0 <= k < |batches| ==> k < |batches| - 1 || i < |prompt| ==> |batches[k]| == chunk
      invariant forall b :: b in batches ==> 0 < |b| <= chunk
      invariant forall k: nat :: k < |batches| ==> decodeOk(k)
    {
      var end := Min(i + chunk, |prompt|);
      var batch := FillBatch(prompt, i, end);
      ConcatSnoc(batches, batch);
      assert PromptSlots(prompt)[..i] + PromptSlots(prompt)[i..end] == PromptSlots(prompt)[..end];
      batches := batches + [batch];
      if !decodeOk(|batches| - 1) {
        return false, batches;
      }
      i := end;
    }
    ok := true;
  }

  /** What the loop knows after sampling `taken`: everything but the current run
      is streamed, the run is held back, and no earlier run reached eight. */
  ghost predicate Tracks(taken: seq<Sample>, run: nat, content: string, pending: string, emitted: seq<string>)
  {
    && Pieces(taken) && run < 8 && EndsInRun(taken, run)
    && content == Concat(emitted) == Text(taken[..|taken| - run])
    && content + pending == Text(taken)
    && NeverCollapsed(taken)
  }

  ghost predicate NeverCollapsed(taken: seq<Sample>)
    requires Pieces(taken)
  {
    forall i :: 0 <= i <= |taken| ==> !EndsInRun(taken[..i], 8)
  }

  ghost predicate CollapsedOn(taken: seq<Sample>, content: string, emitted: seq<string>)
  {
    && Pieces(taken) && EndsInRun(taken, 8) && NeverCollapsed(taken[..|taken| - 1])
    && content == Concat(emitted) == Text(taken[..|taken| - 8])
  }

  ghost predicate SentBack(decoded: seq<Slot>, taken: seq<Sample>, n: nat)
    requires Pieces(taken)
  {
    |decoded| <= |taken| && forall i :: 0 <= i < |decoded| ==> decoded[i] == Slot(taken[i].token, n + i, true)
  }

  lemma SentBackPush(decoded: seq<Slot>, taken: seq<Sample>, sample: Sample, n: nat)
    requires Pieces(taken) && sample.Piece? && SentBack(decoded, taken, n) && |decoded| == |taken|
    ensures SentBack(decoded, taken + [sample], n)
    ensures SentBack(decoded + [Slot(sample.token, n + |taken|, true)], taken + [sample], n)
  {
  }

  lemma TextPush(before: seq<Sample>, s: Sample)
    requires Pieces(before) && s.Piece?
    ensures Pieces(before + [s]) && Text(before + [s]) == Text(before) + s.text
  {
    assert (before + [s])[..|before|] == before;
  }

  lemma Collapses(before: seq<Sample>, s: Sample, content: string, pending: string, emitted: seq<string>)
    requires Tracks(before, 7, content, pending, emitted) && s.Piece? && Filler(s)
    ensures CollapsedOn(before + [s], content, emitted)
  {
    RunExtends(before, s, 7);
    assert (before + [s])[..|before| - 7] == before[..|before| - 7] && (before + [s])[..|before|] == before;
  }

  lemma HeldBack(before: seq<Sample>, s: Sample, run: nat, content: string, pending: string, emitted: seq<string>)
    requires Tracks(before, run, content, pending, emitted) && s.Piece? && Filler(s) && run < 7
    ensures Tracks(before + [s], run + 1, content, pending + s.text, emitted)
  {
    RunExtends(before, s, run);
    NotYet(before, s, run + 1);
    TextPush(before, s);
    assert (before + [s])[..|before| - run] == before[..|before| - run];
    assert content + (pending + s.text) == content + pending + s.text;
  }

  lemma Streamed(before: seq<Sample>, s: Sample, run: nat, content: string, pending: string, emitted: seq<string>,
                 flushed: seq<string>)
    requires Tracks(before, run, content, pending, emitted) && s.Piece? && !Filler(s)
    requires Concat(flushed) == content + pending
    ensures Tracks(before + [s], 0, content + pending + s.text, "", flushed + [s.text])
  {
    RunExtends(before, s, run);
    NotYet(before, s, 0);
    TextPush(before, s);
    ConcatSnoc(flushed, s.text);
    assert (before + [s])[..|before| + 1] == before + [s];
    assert content + pending + s.text + "" == content + pending + s.text;
  }

  method Absorb(ghost before: seq<Sample>, sample: Sample, run: nat, content: string, pending: string, emitted: seq<string>)
    returns (collapsed: bool, run': nat, content': string, pending': string, emitted': seq<string>)
    requires Tracks(before, run, content, pending, emitted) && sample.Piece?
    ensures collapsed ==> content' == content && emitted' == emitted && CollapsedOn(before + [sample], content, emitted)
    ensures !collapsed ==> Tracks(before + [sample], run', content', pending', emitted')
  {
    content', pending', emitted' := content, pending, emitted;
    BumpMeans(sample, run);
    run', collapsed := BumpVocabZeroRun(sample, run).0, BumpVocabZeroRun(sample, run).1;
    if collapsed {
      Collapses(before, sample, content, pending, emitted);
      return;
    }
    if run' > 0 {
      HeldBack(before, sample, run, content, pending, emitted);
      pending' := pending + sample.text;
    } else {
      if pending != "" {
        content' := content + pending;
        ConcatSnoc(emitted, pending);
        emitted' := emitted + [pending];
        pending' := "";
      }
      Streamed(before, sample, run, content, pending, emitted, emitted');
      content' := content' + sample.text;
      emitted' := emitted' + [sample.text];
    }
  }

  /** Between two samples: every piece taken was sent back to the decoder. */
  ghost predicate InLoop(taken: seq<Sample>, decoded: seq<Slot>, n: nat, run: nat, content: string, pending: string,
                   emitted: seq<string>)
  {
    Tracks(taken, run, content, pending, emitted) && |decoded| == |taken| && SentBack(decoded, taken, n)
  }

  /** How the loop ends. */
  ghost predicate Ends(r: Outcome, taken: seq<Sample>, decoded: seq<Slot>, n: nat, emitted: seq<string>, content: string)
  {
    && Pieces(taken) && SentBack(decoded, taken, n) && content == Concat(emitted)
    && match r
       case Completed => content == Text(taken) && NeverCollapsed(taken) && |decoded| == |taken|
       case Collapsed => CollapsedOn(taken, content, emitted) && |decoded| == |taken| - 1
       case DecodeFailed => content <= Text(taken) && NeverCollapsed(taken) && |decoded| == |taken| - 1
       case PieceFailed => content <= Text(taken) && NeverCollapsed(taken) && |decoded| == |taken|
       case _ => false
  }

  /** One turn: absorb the sample, stop on a collapse, else send it back. */
  method TakeSample(taken: seq<Sample>, sample: Sample, decoded: seq<Slot>, n: nat, ok: bool, run: nat, content: string,
                    pending: string, emitted: seq<string>)
    returns (stop: Option<Outcome>, decoded': seq<Slot>, run': nat, content': string, pending': string, emitted': seq<string>)
    requires InLoop(taken, decoded, n, run, content, pending, emitted) && sample.Piece?
    ensures stop.None? ==> ok && InLoop(taken + [sample], decoded', n, run', content', pending', emitted')
    ensures stop == Some(DecodeFailed) ==> !ok
    ensures stop.Some? ==> stop.value in {Collapsed, DecodeFailed}
    ensures stop.Some? ==> Ends(stop.value, taken + [sample], decoded', n, emitted', content')
  {
    var collapsed;
    SentBackPush(decoded, taken, sample, n);
    collapsed, run', content', pending', emitted' := Absorb(taken, sample, run, content, pending, emitted);
    decoded' := decoded;
    if collapsed {
      stop := Some(Collapsed);
      return;
    }
    assert content' <= content' + pending' == Text(taken + [sample]);
    if !ok {
      stop := Some(DecodeFailed);
      return;
    }
    decoded' := decoded + [Slot(sample.token, n + |taken|, true)];
    stop := None;
  }

  /** The sampling loop. `taken` are the pieces sampled, `decoded` the slots sent
      back to the decoder, `emitted` the `on_token` calls. */
  method Sampling(n: nat, maxTokens: nat, sampler: nat -> Sample, decodeOk: nat -> bool)
    returns (r: Outcome, taken: seq<Sample>, decoded: seq<Slot>, emitted: seq<string>, content: string)
    ensures From(sampler, taken) && |taken| <= maxTokens && Ends(r, taken, decoded, n, emitted, content)
    ensures r == Completed ==> |taken| == maxTokens || sampler(|taken|).EndOfText?
    ensures r == PieceFailed ==> sampler(|taken|).BadPiece?
    ensures r == DecodeFailed ==> !decodeOk(|taken| - 1)
  {
    content, emitted, decoded, taken := "", [], [], [];
    var pending := "";
    var run: nat := 0;
    LoopStarts(n);
    while |taken| < maxTokens
      invariant |taken| <= maxTokens && InLoop(taken, decoded, n, run, content, pending, emitted) && From(sampler, taken)
      decreases maxTokens - |taken|
    {
      var sample := sampler(|taken|);
      if sample.EndOfText? {
        break;
      }
      if sample.BadPiece? {
        EndsOnBadPiece(taken, decoded, n, run, content, pending, emitted);
        r := PieceFailed;
        return;
      }
      var stop;
      FromPush(sampler, taken);
      stop, decoded, run, content, pending, emitted :=
        TakeSample(taken, sample, decoded, n, decodeOk(|taken|), run, content, pending, emitted);
      taken := taken + [sample];
      if stop.Some? {
        r := stop.value;
        return;
      }
    }
    content, emitted := Flush(taken, decoded, n, run, content, pending, emitted);
    r := Completed;
  }

  method Flush(ghost taken: seq<Sample>, ghost decoded: seq<Slot>, ghost n: nat, ghost run: nat, content: string,
               pending: string, emitted: seq<string>)
    returns (content': string, emitted': seq<string>)
    requires InLoop(taken, decoded, n, run, content, pending, emitted)
    ensures Ends(Completed, taken, decoded, n, emitted', content')
  {
    content', emitted' := content, emitted;
    if pending != "" {
      content' := content + pending;
      ConcatSnoc(emitted, pending);
      emitted' := emitted + [pending];
    }
  }

  ghost predicate From(sampler: nat -> Sample, taken: seq<Sample>)
  {
    forall i :: 0 <= i < |taken| ==> taken[i] == sampler(i)
  }

  lemma FromPush(sampler: nat -> Sample, taken: seq<Sample>)
    requires From(sampler, taken)
    ensures From(sampler, taken + [sampler(|taken|)])
  {
  }

  lemma LoopStarts(n: nat)
    ensures InLoop([], [], n, 0, "", "", [])
  {
  }

  lemma EndsOnBadPiece(taken: seq<Sample>, decoded: seq<Slot>, n: nat, run: nat, content: string, pending: string,
                       emitted: seq<string>)
    requires InLoop(taken, decoded, n, run, content, pending, emitted)
    ensures Ends(PieceFailed, taken, decoded, n, emitted, content)
  {
    assert content <= content + pending == Text(taken);
  }

  lemma RunExtends(before: seq<Sample>, s: Sample, run: nat)
    requires Pieces(before) && s.Piece? && EndsInRun(before, run)
    ensures EndsInRun(before + [s], if Filler(s) then run + 1 else 0)
  {
  }

  lemma {:induction false} EightEnds(taken: seq<Sample>, i: nat) returns (end: nat)
    requires Pieces(taken) && i + 8 <= |taken| && forall k :: i <= k < i + 8 ==> Filler(taken[k])
    ensures end <= |taken| && EndsInRun(taken[..end], 8)
  {
    if i > 0 && Filler(taken[i - 1]) {
      end := EightEnds(taken, i - 1);
    } else {
      end := i + 8;
      var run := taken[..end];
      assert forall k :: 0 <= k < |run| ==> run[k] == taken[k];
    }
  }

  /** Without a collapse no eight samples in a row are filler. */
  lemma NeverEight(taken: seq<Sample>, i: nat)
    requires Pieces(taken) && NeverCollapsed(taken) && i + 8 <= |taken|
    ensures exists k :: i <= k < i + 8 && !Filler(taken[k])
  {
    if forall k :: i <= k < i + 8 ==> Filler(taken[k]) {
      var end := EightEnds(taken, i);
    }
  }

  /** A run shorter than eight is no collapse: the run length is determined. */
  lemma NotYet(before: seq<Sample>, s: Sample, run: nat)
    requires Pieces(before) && s.Piece? && NeverCollapsed(before)
    requires EndsInRun(before + [s], run) && run < 8
    ensures NeverCollapsed(before + [s])
  {
    var taken := before + [s];
    forall i | 0 <= i <= |taken| ensures !EndsInRun(taken[..i], 8) {
      if i <= |before| { assert taken[..i] == before[..i]; } else { assert taken[..i] == taken; }
    }
  }

  /** The whole attempt. Positions stay below `nCtx`; a completed attempt has
      streamed exactly its content; a collapsed one streamed everything before
      the final eight-token run and nothing of the run. */
  method GenerateText(prompt: seq<int>, nCtx: nat, nBatch: nat, maxTokens: nat,
                      sampler: nat -> Sample, prefillOk: nat -> bool, decodeOk: nat -> bool)
    returns (r: Outcome, prefilled: seq<seq<Slot>>, taken: seq<Sample>, decoded: seq<Slot>, emitted: seq<string>, content: string)
    requires maxTokens >= 1
    ensures r == PromptTooLong <==> |prompt| + maxTokens > nCtx
    ensures r == PromptTooLong ==> prefilled == [] && emitted == []
    ensures Concat(prefilled) <= PromptSlots(prompt)
    ensures r == PromptTooLong || r == PrefillFailed ==> decoded == [] && emitted == []
    ensures r != PromptTooLong && r != PrefillFailed ==> Concat(prefilled) == PromptSlots(prompt)
    ensures r != PromptTooLong && r != PrefillFailed ==> forall k :: 0 <= k < |prompt| ==>
      var s := Concat(prefilled)[k]; s.token == prompt[k] && s.pos == k && (s.logits <==> k == |prompt| - 1)
    ensures forall s :: s in Concat(prefilled) ==> s.pos < nCtx
    ensures r != PromptTooLong && r != PrefillFailed ==> Ends(r, taken, decoded, |prompt|, emitted, content)
    ensures forall i :: 0 <= i < |decoded| ==> decoded[i].pos == |prompt| + i < nCtx
    ensures |taken| <= maxTokens && From(sampler, taken)
  {
    prefilled, taken, decoded, emitted, content := [], [], [], [], "";
    if |prompt| + maxTokens > nCtx {
      r := PromptTooLong;
      return;
    }
    var ok;
    ok, prefilled := Prefill(prompt, Max(nBatch, 1), prefillOk);
    assert forall s :: s in Concat(prefilled) ==> s in PromptSlots(prompt);
    if !ok {
      r := PrefillFailed;
      return;
    }
    r, taken, decoded, emitted, content := Sampling(|prompt|, maxTokens, sampler, decodeOk);
  }
}
