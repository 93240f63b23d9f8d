/** `parse_records_together` of vcf_miniparser.py: a merge-join over one
    record decoder per input file that groups the records sharing
    `(CHROM, POS)`.

    The join is specified over the streams the decoders produce
    (`Join`), and the buffer-and-advance loop over `RecordParser` objects
    (`ParseRecordsTogether`) is proved to yield exactly those groups. */
module Join {
  import opened Strings
  import opened VcfTypes
  import opened Records

  /** The initial `lowest_chrom`: eighteen `~` characters. */
  const Sentinel: string := "~~~~~~~~~~~~~~~~~~"

  // ---------------------------------------------------------------------------
  // The (CHROM, POS) order
  // ---------------------------------------------------------------------------

  /** CHROM compared as a string first, POS second. */
  predicate KeyLess(a: Record, b: Record)
  {
    LexLess(a.chrom, b.chrom) || (a.chrom == b.chrom && a.pos < b.pos)
  }

  predicate SameKey(a: Record, b: Record)
  {
    a.chrom == b.chrom && a.pos == b.pos
  }

  /** A record the scan can select: its CHROM does not sort above the sentinel. */
  predicate Eligible(r: Record)
  {
    !LexLess(Sentinel, r.chrom)
  }

  lemma KeyLessIrreflexive(a: Record)
    ensures !KeyLess(a, a)
  {
    LexLessIrreflexive(a.chrom);
  }

  lemma KeyLessTransitive(a: Record, b: Record, c: Record)
    requires KeyLess(a, b) && KeyLess(b, c)
    ensures KeyLess(a, c)
  {
    if LexLess(a.chrom, b.chrom) && LexLess(b.chrom, c.chrom) {
      LexLessTransitive(a.chrom, b.chrom, c.chrom);
    }
  }

  /** A record below an eligible one is eligible. */
  lemma BelowEligible(r: Record, l: Record)
    requires KeyLess(r, l) && Eligible(l)
    ensures Eligible(r)
  {
    if LexLess(Sentinel, r.chrom) && LexLess(r.chrom, l.chrom) {
      LexLessTransitive(Sentinel, r.chrom, l.chrom);
    }
  }

  // ---------------------------------------------------------------------------
  // Selecting the lowest heads
  // ---------------------------------------------------------------------------

  /** The scan's state: the ids selected so far and the record whose key is
      `(lowest_chrom, lowest_pos)`; None stands for `(sentinel, inf)`. */
  datatype Scan = Scan(ids: seq<nat>, low: Option<Record>)

  /** The test that restarts the selection: same CHROM and a lower POS, or
      a lower CHROM. Against `(sentinel, inf)` any POS is lower. */
  predicate Beats(r: Record, low: Option<Record>)
  {
    match low
    case None => r.chrom == Sentinel || LexLess(r.chrom, Sentinel)
    case Some(l) => KeyLess(r, l)
  }

  /** One iteration of the scan over `record_buffer`. */
  function ScanStep(s: Scan, i: nat, head: Option<Record>): Scan
  {
    match head
    case None => s
    case Some(r) =>
      if Beats(r, s.low) then Scan([i], Some(r))
      else if s.low.Some? && SameKey(r, s.low.value) then Scan(s.ids + [i], s.low)
      else s
  }

  function ScanFold(buffer: seq<Option<Record>>, n: nat): Scan
    requires n <= |buffer|
  {
    if n == 0 then Scan([], None) else ScanStep(ScanFold(buffer, n - 1), n - 1, buffer[n - 1])
  }

  /** `selected_records_ids` after the scan. */
  function Select(buffer: seq<Option<Record>>): seq<nat>
  {
    ScanFold(buffer, |buffer|).ids
  }

  /** A buffered head that can be selected. */
  predicate Candidate(buffer: seq<Option<Record>>, j: int)
  {
    0 <= j < |buffer| && buffer[j].Some? && Eligible(buffer[j].value)
  }

  lemma BeatsNone(r: Record)
    ensures Beats(r, None) <==> Eligible(r)
  {
    LexLessTotal(r.chrom, Sentinel);
    LexLessIrreflexive(Sentinel);
    if LexLess(r.chrom, Sentinel) {
      LexLessAsymmetric(r.chrom, Sentinel);
    }
  }

  /** What the scan knows after the first `n` heads: the lowest key among
      the candidates seen and, in ascending order, every candidate seen
      with that key. */
  predicate ScanHolds(buffer: seq<Option<Record>>, n: nat, s: Scan)
    requires n <= |buffer|
  {
    LowKnown(buffer, n, s) && IdsSelected(buffer, n, s) && Ascending(s.ids) && NoneLower(buffer, n, s)
  }

  /** There is a lowest key exactly when a candidate has been seen. */
  predicate LowKnown(buffer: seq<Option<Record>>, n: nat, s: Scan)
    requires n <= |buffer|
  {
    (s.low.None? <==> forall j :: 0 <= j < n ==> !Candidate(buffer, j))
    && (s.low.None? ==> s.ids == [])
    && (s.low.Some? ==> Eligible(s.low.value) && |s.ids| > 0)
  }

  /** Every selected id is a candidate seen so far with the lowest key. */
  predicate IdsSelected(buffer: seq<Option<Record>>, n: nat, s: Scan)
    requires n <= |buffer|
  {
    forall k :: 0 <= k < |s.ids| ==>
      s.ids[k] < n && Candidate(buffer, s.ids[k]) && s.low.Some? && SameKey(buffer[s.ids[k]].value, s.low.value)
  }

  predicate Ascending(ids: seq<nat>)
  {
    forall k, k' :: 0 <= k < k' < |ids| ==> ids[k] < ids[k']
  }

  /** No candidate seen so far is below the lowest key, and each one with
      that key is selected. */
  predicate NoneLower(buffer: seq<Option<Record>>, n: nat, s: Scan)
    requires n <= |buffer|
  {
    forall j {:trigger Candidate(buffer, j)} :: 0 <= j < n && Candidate(buffer, j) ==>
      s.low.Some? && !KeyLess(buffer[j].value, s.low.value)
      && (SameKey(buffer[j].value, s.low.value) ==> j in s.ids)
  }

  /** A head that restarts the selection is a candidate. */
  lemma RestartEligible(buffer: seq<Option<Record>>, n: nat, prev: Scan, r: Record)
    requires 0 < n <= |buffer| && buffer[n - 1] == Some(r)
    requires LowKnown(buffer, n - 1, prev) && Beats(r, prev.low)
    ensures Candidate(buffer, n - 1)
  {
    if prev.low.None? {
      BeatsNone(r);
    } else {
      BelowEligible(r, prev.low.value);
    }
  }

  /** A restart: the head alone is selected, and every earlier candidate
      sits strictly above it. */
  lemma RestartHolds(buffer: seq<Option<Record>>, n: nat, prev: Scan, r: Record)
    requires 0 < n <= |buffer| && buffer[n - 1] == Some(r)
    requires LowKnown(buffer, n - 1, prev) && NoneLower(buffer, n - 1, prev) && Beats(r, prev.low)
    ensures ScanHolds(buffer, n, Scan([n - 1], Some(r)))
  {
    RestartEligible(buffer, n, prev, r);
    RestartLowKnown(buffer, n, r);
    RestartNoneLower(buffer, n, prev, r);
  }

  lemma RestartLowKnown(buffer: seq<Option<Record>>, n: nat, r: Record)
    requires 0 < n <= |buffer| && buffer[n - 1] == Some(r) && Candidate(buffer, n - 1)
    ensures LowKnown(buffer, n, Scan([n - 1], Some(r)))
    ensures IdsSelected(buffer, n, Scan([n - 1], Some(r)))
  {
  }

  lemma RestartNoneLower(buffer: seq<Option<Record>>, n: nat, prev: Scan, r: Record)
    requires 0 < n <= |buffer| && buffer[n - 1] == Some(r)
    requires LowKnown(buffer, n - 1, prev) && NoneLower(buffer, n - 1, prev) && Beats(r, prev.low)
    ensures NoneLower(buffer, n, Scan([n - 1], Some(r)))
  {
    forall j | 0 <= j < n && Candidate(buffer, j)
      ensures !KeyLess(buffer[j].value, r) && (SameKey(buffer[j].value, r) ==> j in [n - 1])
    {
      if j == n - 1 {
        HeadNotBelow(buffer, j, r);
      } else if prev.low.None? {
        assert false;
      } else {
        RestartBelow(buffer, n, prev, r, j);
      }
    }
  }

  lemma HeadNotBelow(buffer: seq<Option<Record>>, j: nat, r: Record)
    requires j < |buffer| && buffer[j] == Some(r)
    ensures !KeyLess(buffer[j].value, r)
  {
    KeyLessIrreflexive(r);
  }

  /** An earlier candidate sits strictly above a head that beats the
      lowest key. */
  lemma RestartBelow(buffer: seq<Option<Record>>, n: nat, prev: Scan, r: Record, j: nat)
    requires j < n - 1 < |buffer| && Candidate(buffer, j)
    requires NoneLower(buffer, n - 1, prev) && prev.low.Some? && KeyLess(r, prev.low.value)
    ensures !KeyLess(buffer[j].value, r) && !SameKey(buffer[j].value, r)
  {
    var l := prev.low.value;
    assert !KeyLess(buffer[j].value, l);
    if KeyLess(buffer[j].value, r) {
      KeyLessTransitive(buffer[j].value, r, l);
    }
  }

  /** A head with the lowest key joins the selection. */
  lemma AppendHolds(buffer: seq<Option<Record>>, n: nat, prev: Scan, r: Record)
    requires 0 < n <= |buffer| && buffer[n - 1] == Some(r)
    requires ScanHolds(buffer, n - 1, prev) && prev.low.Some? && SameKey(r, prev.low.value)
    ensures ScanHolds(buffer, n, Scan(prev.ids + [n - 1], prev.low))
  {
    assert Candidate(buffer, n - 1);
    AppendIds(buffer, n, prev);
    AppendNoneLower(buffer, n, prev, r);
  }

  lemma AppendIds(buffer: seq<Option<Record>>, n: nat, prev: Scan)
    requires 0 < n <= |buffer| && Candidate(buffer, n - 1)
    requires LowKnown(buffer, n - 1, prev) && IdsSelected(buffer, n - 1, prev) && Ascending(prev.ids)
    requires prev.low.Some? && SameKey(buffer[n - 1].value, prev.low.value)
    ensures var next := Scan(prev.ids + [n - 1], prev.low);
      LowKnown(buffer, n, next) && IdsSelected(buffer, n, next) && Ascending(next.ids)
  {
    AppendSelected(buffer, n, prev);
    AppendAscending(prev.ids, n - 1);
  }

  lemma AppendSelected(buffer: seq<Option<Record>>, n: nat, prev: Scan)
    requires 0 < n <= |buffer| && Candidate(buffer, n - 1) && IdsSelected(buffer, n - 1, prev)
    requires prev.low.Some? && SameKey(buffer[n - 1].value, prev.low.value)
    ensures IdsSelected(buffer, n, Scan(prev.ids + [n - 1], prev.low))
  {
    var ids := prev.ids + [n - 1];
    forall k | 0 <= k < |ids|
      ensures ids[k] < n && Candidate(buffer, ids[k]) && SameKey(buffer[ids[k]].value, prev.low.value)
    {
      if k < |prev.ids| {
        assert ids[k] == prev.ids[k];
      }
    }
  }

  lemma AppendAscending(ids: seq<nat>, last: nat)
    requires Ascending(ids) && forall k :: 0 <= k < |ids| ==> ids[k] < last
    ensures Ascending(ids + [last])
  {
  }

  lemma AppendNoneLower(buffer: seq<Option<Record>>, n: nat, prev: Scan, r: Record)
    requires 0 < n <= |buffer| && buffer[n - 1] == Some(r)
    requires NoneLower(buffer, n - 1, prev) && prev.low.Some? && SameKey(r, prev.low.value)
    ensures NoneLower(buffer, n, Scan(prev.ids + [n - 1], prev.low))
  {
    LexLessIrreflexive(r.chrom);
  }

  /** Any other head leaves the scan as it was. */
  lemma SkipHolds(buffer: seq<Option<Record>>, n: nat, prev: Scan)
    requires 0 < n <= |buffer| && ScanHolds(buffer, n - 1, prev)
    requires Passed(buffer[n - 1], prev.low)
    ensures ScanHolds(buffer, n, prev)
  {
    SkipNotCandidate(buffer, n, prev);
    SkipNoneLower(buffer, n, prev);
  }

  /** A head that neither beats nor matches the lowest key. */
  predicate Passed(head: Option<Record>, low: Option<Record>)
  {
    head.Some? ==> !Beats(head.value, low) && !(low.Some? && SameKey(head.value, low.value))
  }

  lemma SkipNotCandidate(buffer: seq<Option<Record>>, n: nat, prev: Scan)
    requires 0 < n <= |buffer| && Passed(buffer[n - 1], prev.low)
    ensures prev.low.None? ==> !Candidate(buffer, n - 1)
  {
    if buffer[n - 1].Some? && prev.low.None? {
      BeatsNone(buffer[n - 1].value);
    }
  }

  lemma SkipNoneLower(buffer: seq<Option<Record>>, n: nat, prev: Scan)
    requires 0 < n <= |buffer| && NoneLower(buffer, n - 1, prev) && Passed(buffer[n - 1], prev.low)
    requires prev.low.None? ==> !Candidate(buffer, n - 1)
    ensures NoneLower(buffer, n, prev)
  {
    forall j | 0 <= j < n && Candidate(buffer, j)
      ensures prev.low.Some? && !KeyLess(buffer[j].value, prev.low.value)
        && (SameKey(buffer[j].value, prev.low.value) ==> j in prev.ids)
    {
      if j == n - 1 {
        assert !Beats(buffer[j].value, prev.low);
      }
    }
  }

  lemma {:induction false} ScanInvariant(buffer: seq<Option<Record>>, n: nat)
    requires n <= |buffer|
    ensures ScanHolds(buffer, n, ScanFold(buffer, n))
  {
    if n > 0 {
      ScanInvariant(buffer, n - 1);
      var prev := ScanFold(buffer, n - 1);
      match buffer[n - 1]
      case None =>
        SkipHolds(buffer, n, prev);
      case Some(r) =>
        if Beats(r, prev.low) {
          RestartHolds(buffer, n, prev, r);
        } else if prev.low.Some? && SameKey(r, prev.low.value) {
          AppendHolds(buffer, n, prev, r);
        } else {
          SkipHolds(buffer, n, prev);
        }
    }
  }

  /** `selected_records_ids` is empty exactly when no buffered head is a
      candidate; otherwise it lists, in ascending order, exactly the
      candidates whose `(CHROM, POS)` is the minimum over all candidates. */
  lemma SelectMeaning(buffer: seq<Option<Record>>)
    ensures var ids := Select(buffer);
      (|ids| == 0 <==> forall j :: 0 <= j < |buffer| ==> !Candidate(buffer, j))
      && (forall k :: 0 <= k < |ids| ==> Candidate(buffer, ids[k]))
      && (forall k :: 0 <= k < |ids| ==> SameKey(buffer[ids[k]].value, buffer[ids[0]].value))
      && (forall k, k' :: 0 <= k < k' < |ids| ==> ids[k] < ids[k'])
      && (|ids| > 0 ==> forall j :: Candidate(buffer, j) ==>
            !KeyLess(buffer[j].value, buffer[ids[0]].value)
            && (SameKey(buffer[j].value, buffer[ids[0]].value) <==> j in ids))
  {
    ScanInvariant(buffer, |buffer|);
  }

  /** The scan loop of `parse_records_together`, with `lowest_pos` None
      for `float('inf')`. */
  method SelectLowest(buffer: seq<Option<Record>>) returns (ids: seq<nat>, selected: seq<Record>)
    ensures ids == Select(buffer)
    ensures |selected| == |ids| && forall k :: 0 <= k < |ids| ==> ids[k] < |buffer| && buffer[ids[k]] == Some(selected[k])
  {
    ids := [];
    selected := [];
    var lowestChrom := Sentinel;
    var lowestPos: Option<int> := None;
    ghost var low: Option<Record> := None;
    for i := 0 to |buffer|
      invariant ScanFold(buffer, i) == Scan(ids, low)
      invariant low.None? ==> lowestChrom == Sentinel && lowestPos.None?
      invariant low.Some? ==> lowestChrom == low.value.chrom && lowestPos == Some(low.value.pos)
      invariant |selected| == |ids| && forall k :: 0 <= k < |ids| ==> ids[k] < i && buffer[ids[k]] == Some(selected[k])
    {
      match buffer[i]
      case None =>
      case Some(r) =>
        if (r.chrom == lowestChrom && (lowestPos.None? || r.pos < lowestPos.value)) || LexLess(r.chrom, lowestChrom) {
          ids := [i];
          selected := [r];
          lowestChrom := r.chrom;
          lowestPos := Some(r.pos);
          low := Some(r);
        } else if r.chrom == lowestChrom && lowestPos == Some(r.pos) {
          ids := ids + [i];
          selected := selected + [r];
        }
    }
  }

  // ---------------------------------------------------------------------------
  // The join over the decoded streams
  // ---------------------------------------------------------------------------

  /** How the join generator stops: every decoder is exhausted, a decoder
      raises, or it stalls: only heads that sort above the sentinel remain,
      none is ever selected, and the generator yields empty groups for ever. */
  datatype JoinEnd = Done | Aborted(error: Exc) | Stalled

  /** One yielded `zip(selected_records_ids, selected_records)`. */
  type Group = seq<(nat, Record)>

  datatype Joined = Joined(groups: seq<Group>, end: JoinEnd)

  /** The decoded stream of each input; the join never drops bad records. */
  function Streams(inputs: seq<(seq<string>, Headers)>, ignore: bool): (streams: seq<Stream>)
    ensures |streams| == |inputs|
    ensures forall i :: 0 <= i < |inputs| ==> streams[i] == DecodeStream(inputs[i].0, inputs[i].1, ignore, false)
  {
    seq(|inputs|, i requires 0 <= i < |inputs| => DecodeStream(inputs[i].0, inputs[i].1, ignore, false))
  }

  /** What is left of a stream after `p` pulls. */
  function After(s: Stream, p: nat): Stream
    requires p <= |s.records|
  {
    Stream(s.records[p..], s.end)
  }

  /** The buffered head when record `c` of the stream is the next one. */
  function Head(s: Stream, c: nat): Option<Record>
  {
    if c < |s.records| then Some(s.records[c]) else None
  }

  /** Pull number `p` (from 0) of the stream raises. */
  predicate PullFails(s: Stream, p: nat)
  {
    p == |s.records| && s.end.Halted?
  }

  predicate ValidCursor(streams: seq<Stream>, cursor: seq<nat>)
  {
    |cursor| == |streams| && forall i :: 0 <= i < |streams| ==> cursor[i] <= |streams[i].records|
  }

  /** `record_buffer` when stream `i` is at record `cursor[i]`. */
  function Heads(streams: seq<Stream>, cursor: seq<nat>): (heads: seq<Option<Record>>)
    requires |cursor| == |streams|
    ensures |heads| == |streams|
    ensures forall i :: 0 <= i < |streams| ==> heads[i] == Head(streams[i], cursor[i])
  {
    seq(|streams|, i requires 0 <= i < |streams| => Head(streams[i], cursor[i]))
  }

  /** The number of exhausted decoders: the `None` entries of the buffer. */
  function CountNone(buffer: seq<Option<Record>>): nat
  {
    if |buffer| == 0 then 0
    else CountNone(buffer[..|buffer| - 1]) + (if buffer[|buffer| - 1].None? then 1 else 0)
  }

  lemma {:induction false} CountNoneBounds(buffer: seq<Option<Record>>)
    ensures CountNone(buffer) <= |buffer|
    ensures CountNone(buffer) == |buffer| <==> forall i :: 0 <= i < |buffer| ==> buffer[i].None?
  {
    if |buffer| > 0 {
      var init := buffer[..|buffer| - 1];
      CountNoneBounds(init);
      if forall i :: 0 <= i < |buffer| ==> buffer[i].None? {
        assert forall i :: 0 <= i < |init| ==> init[i].None? by {
          forall i | 0 <= i < |init| ensures init[i].None? { assert init[i] == buffer[i]; }
        }
      } else if CountNone(buffer) == |buffer| {
        forall i | 0 <= i < |buffer| ensures buffer[i].None? {
          if i < |init| { assert init[i] == buffer[i]; }
        }
      }
    }
  }

  /** Replacing one entry changes the count by whether it was and is None. */
  lemma {:induction false} CountNoneUpdate(buffer: seq<Option<Record>>, i: nat, x: Option<Record>)
    requires i < |buffer|
    ensures CountNone(buffer[i := x]) + (if buffer[i].None? then 1 else 0)
         == CountNone(buffer) + (if x.None? then 1 else 0)
    decreases |buffer|
  {
    var n := |buffer|;
    if i < n - 1 {
      assert buffer[i := x][..n - 1] == buffer[..n - 1][i := x];
      CountNoneUpdate(buffer[..n - 1], i, x);
    } else {
      assert buffer[i := x][..n - 1] == buffer[..n - 1];
    }
  }

  /** The first exception among the pulls of `ids`, in order, when stream
      `i` is pulled for the `pos[i]`-th time (from 0). */
  function FirstFailure(streams: seq<Stream>, pos: seq<nat>, ids: seq<nat>): Option<Exc>
    requires |pos| == |streams|
    requires forall k :: 0 <= k < |ids| ==> ids[k] < |streams|
    decreases |ids|
  {
    if |ids| == 0 then None
    else if PullFails(streams[ids[0]], pos[ids[0]]) then Some(streams[ids[0]].end.error)
    else FirstFailure(streams, pos, ids[1..])
  }

  lemma {:induction false} FirstFailureSnoc(streams: seq<Stream>, pos: seq<nat>, ids: seq<nat>, x: nat)
    requires |pos| == |streams| && x < |streams|
    requires forall k :: 0 <= k < |ids| ==> ids[k] < |streams|
    ensures FirstFailure(streams, pos, ids + [x])
         == if FirstFailure(streams, pos, ids).Some? then FirstFailure(streams, pos, ids)
            else if PullFails(streams[x], pos[x]) then Some(streams[x].end.error)
            else None
    decreases |ids|
  {
    if |ids| > 0 {
      assert (ids + [x])[1..] == ids[1..] + [x];
      FirstFailureSnoc(streams, pos, ids[1..], x);
    } else {
      assert (ids + [x])[1..] == [];
    }
  }

  /** The cursor after every selected decoder is pulled once. */
  function Advanced(cursor: seq<nat>, ids: seq<nat>): (next: seq<nat>)
    ensures |next| == |cursor|
    ensures forall i :: 0 <= i < |cursor| ==> next[i] == if i in ids then cursor[i] + 1 else cursor[i]
  {
    seq(|cursor|, i requires 0 <= i < |cursor| => if i in ids then cursor[i] + 1 else cursor[i])
  }

  /** The records still to be pulled from the first `n` streams. */
  function Left(streams: seq<Stream>, cursor: seq<nat>, n: nat): nat
    requires ValidCursor(streams, cursor) && n <= |streams|
  {
    if n == 0 then 0 else Left(streams, cursor, n - 1) + (|streams[n - 1].records| - cursor[n - 1])
  }

  lemma {:induction false} LeftDecreases(streams: seq<Stream>, cursor: seq<nat>, next: seq<nat>, n: nat, j: nat)
    requires ValidCursor(streams, cursor) && ValidCursor(streams, next) && n <= |streams|
    requires forall i :: 0 <= i < |streams| ==> cursor[i] <= next[i]
    ensures Left(streams, next, n) <= Left(streams, cursor, n)
    ensures j < n && cursor[j] < next[j] ==> Left(streams, next, n) < Left(streams, cursor, n)
  {
    if n > 0 {
      LeftDecreases(streams, cursor, next, n - 1, j);
    }
  }

  /** The yielded group: each selected id with its buffered record. */
  function GroupOf(heads: seq<Option<Record>>, ids: seq<nat>): (g: Group)
    requires forall k :: 0 <= k < |ids| ==> ids[k] < |heads| && heads[ids[k]].Some?
    ensures |g| == |ids|
    ensures forall k :: 0 <= k < |ids| ==> g[k] == (ids[k], heads[ids[k]].value)
  {
    seq(|ids|, k requires 0 <= k < |ids| => (ids[k], heads[ids[k]].value))
  }

  /** The main loop of `parse_records_together` from the buffer of heads at
      `cursor`. The selected decoders are pulled in ascending order before
      the group is yielded, so a pull that raises loses the group. */
  function JoinFrom(streams: seq<Stream>, cursor: seq<nat>): Joined
    requires ValidCursor(streams, cursor)
    decreases Left(streams, cursor, |streams|)
  {
    var heads := Heads(streams, cursor);
    if CountNone(heads) < |streams| then
      var ids := Select(heads);
      if |ids| == 0 then Joined([], Stalled)
      else
        SelectMeaning(heads);
        var next := Advanced(cursor, ids);
        assert ValidCursor(streams, next) by {
          forall k | 0 <= k < |ids| ensures cursor[ids[k]] < |streams[ids[k]].records| {
            assert Candidate(heads, ids[k]);
          }
        }
        assert cursor[ids[0]] < next[ids[0]];
        LeftDecreases(streams, cursor, next, |streams|, ids[0]);
        match FirstFailure(streams, next, ids)
        case Some(e) => Joined([], Aborted(e))
        case None =>
          var rest := JoinFrom(streams, next);
          Joined([GroupOf(heads, ids)] + rest.groups, rest.end)
    else Joined([], Done)
  }

  function Range(n: nat): (r: seq<nat>)
    ensures |r| == n && forall k :: 0 <= k < n ==> r[k] == k
  {
    seq(n, k requires 0 <= k < n => k)
  }

  function Zeros(n: nat): (r: seq<nat>)
    ensures |r| == n && forall k :: 0 <= k < n ==> r[k] == 0
  {
    seq(n, k requires 0 <= k < n => 0)
  }

  /** `parse_records_together` over the decoded streams: the first pull of
      every decoder, in order, then the main loop. */
  function Join(streams: seq<Stream>): Joined
  {
    match FirstFailure(streams, Zeros(|streams|), Range(|streams|))
    case Some(e) => Joined([], Aborted(e))
    case None => JoinFrom(streams, Zeros(|streams|))
  }

  // ---------------------------------------------------------------------------
  // Properties of the join
  // ---------------------------------------------------------------------------

  /** A well-formed group: not empty, ascending input indices, one
      `(CHROM, POS)` shared by every record, none above the sentinel. */
  predicate GroupOk(g: Group, n: nat)
  {
    |g| > 0
    && (forall k :: 0 <= k < |g| ==> g[k].0 < n && SameKey(g[k].1, g[0].1) && Eligible(g[k].1))
    && (forall k, k' :: 0 <= k < k' < |g| ==> g[k].0 < g[k'].0)
  }

  /** Every record of every stream sorts at or below the sentinel. */
  predicate AllEligible(streams: seq<Stream>)
  {
    forall i, k :: 0 <= i < |streams| && 0 <= k < |streams[i].records| ==> Eligible(streams[i].records[k])
  }

  /** One round of the main loop, unfolded: the selected heads are present,
      the advanced cursor is valid and leaves fewer records to pull. */
  lemma StepFacts(streams: seq<Stream>, cursor: seq<nat>)
    requires ValidCursor(streams, cursor)
    requires CountNone(Heads(streams, cursor)) < |streams| && |Select(Heads(streams, cursor))| > 0
    ensures var heads := Heads(streams, cursor);
      var ids := Select(heads);
      var next := Advanced(cursor, ids);
      (forall k :: 0 <= k < |ids| ==> ids[k] < |heads| && heads[ids[k]].Some?)
      && (forall k, k' :: 0 <= k < k' < |ids| ==> ids[k] < ids[k'])
      && ValidCursor(streams, next)
      && Left(streams, next, |streams|) < Left(streams, cursor, |streams|)
      && JoinFrom(streams, cursor)
         == match FirstFailure(streams, next, ids)
            case Some(e) => Joined([], Aborted(e))
            case None => Joined([GroupOf(heads, ids)] + JoinFrom(streams, next).groups, JoinFrom(streams, next).end)
  {
    var heads := Heads(streams, cursor);
    var ids := Select(heads);
    SelectMeaning(heads);
    var next := Advanced(cursor, ids);
    forall k | 0 <= k < |ids| ensures ids[k] < |heads| && heads[ids[k]].Some? && cursor[ids[k]] < |streams[ids[k]].records| {
      assert Candidate(heads, ids[k]);
    }
    assert cursor[ids[0]] < next[ids[0]];
    LeftDecreases(streams, cursor, next, |streams|, ids[0]);
  }

  /** The selected heads form a well-formed group. */
  lemma SelectedGroupOk(heads: seq<Option<Record>>)
    requires |Select(heads)| > 0
    ensures forall k :: 0 <= k < |Select(heads)| ==> Select(heads)[k] < |heads| && heads[Select(heads)[k]].Some?
    ensures GroupOk(GroupOf(heads, Select(heads)), |heads|)
  {
    var ids := Select(heads);
    SelectMeaning(heads);
    forall k | 0 <= k < |ids| ensures ids[k] < |heads| && heads[ids[k]].Some? {
      assert Candidate(heads, ids[k]);
    }
    var g := GroupOf(heads, ids);
    forall k | 0 <= k < |g| ensures g[k].0 < |heads| && SameKey(g[k].1, g[0].1) && Eligible(g[k].1) {
      assert Candidate(heads, ids[k]);
    }
  }

  /** With every record eligible, a buffer that still holds a head selects one. */
  lemma NoStallStep(streams: seq<Stream>, cursor: seq<nat>)
    requires ValidCursor(streams, cursor) && AllEligible(streams)
    requires CountNone(Heads(streams, cursor)) < |streams|
    ensures |Select(Heads(streams, cursor))| > 0
  {
    var heads := Heads(streams, cursor);
    CountNoneBounds(heads);
    SelectMeaning(heads);
    var i :| 0 <= i < |heads| && heads[i].Some?;
    assert Candidate(heads, i);
  }

  lemma {:induction false} JoinFromShape(streams: seq<Stream>, cursor: seq<nat>)
    requires ValidCursor(streams, cursor)
    ensures var r := JoinFrom(streams, cursor);
      (forall k :: 0 <= k < |r.groups| ==> GroupOk(r.groups[k], |streams|))
      && (AllEligible(streams) ==> r.end != Stalled)
    decreases Left(streams, cursor, |streams|)
  {
    var heads := Heads(streams, cursor);
    if CountNone(heads) < |streams| {
      if AllEligible(streams) {
        NoStallStep(streams, cursor);
      }
      var ids := Select(heads);
      if |ids| > 0 {
        StepFacts(streams, cursor);
        var next := Advanced(cursor, ids);
        if FirstFailure(streams, next, ids).None? {
          JoinFromShape(streams, next);
          SelectedGroupOk(heads);
        }
      }
    }
  }

  /** Every yielded group is well formed; zero inputs yield nothing; and
      when no CHROM sorts above the sentinel the join never stalls. */
  lemma JoinShape(streams: seq<Stream>)
    ensures var r := Join(streams);
      (forall k :: 0 <= k < |r.groups| ==> GroupOk(r.groups[k], |streams|))
      && (AllEligible(streams) ==> r.end != Stalled)
      && (|streams| == 0 ==> r == Joined([], Done))
  {
    var zeros := Zeros(|streams|);
    if FirstFailure(streams, zeros, Range(|streams|)).None? {
      assert Join(streams) == JoinFrom(streams, zeros);
      JoinFromShape(streams, zeros);
      assert forall k :: 0 <= k < |JoinFrom(streams, zeros).groups| ==> GroupOk(JoinFrom(streams, zeros).groups[k], |streams|);
      if |streams| == 0 {
        assert Heads(streams, zeros) == [];
      }
    } else {
      var e := FirstFailure(streams, zeros, Range(|streams|)).value;
      assert Join(streams) == Joined([], Aborted(e));
      assert Join(streams).groups == [];
    }
  }

  /** The records of input `i` in a group, in order. */
  function Member(g: Group, i: nat): seq<Record>
  {
    if |g| == 0 then [] else (if g[0].0 == i then [g[0].1] else []) + Member(g[1..], i)
  }

  /** The records of input `i` across the groups, in order. */
  function Project(groups: seq<Group>, i: nat): seq<Record>
  {
    if |groups| == 0 then [] else Member(groups[0], i) + Project(groups[1..], i)
  }

  lemma {:induction false} MemberOfGroup(heads: seq<Option<Record>>, ids: seq<nat>, i: nat)
    requires forall k :: 0 <= k < |ids| ==> ids[k] < |heads| && heads[ids[k]].Some?
    requires forall k, k' :: 0 <= k < k' < |ids| ==> ids[k] < ids[k']
    ensures Member(GroupOf(heads, ids), i) == if i in ids then [heads[i].value] else []
    decreases |ids|
  {
    if |ids| > 0 {
      assert GroupOf(heads, ids)[1..] == GroupOf(heads, ids[1..]);
      MemberOfGroup(heads, ids[1..], i);
      if i == ids[0] {
        assert i !in ids[1..];
      }
    }
  }

  lemma SliceCons(recs: seq<Record>, c: nat, m: nat)
    requires c + 1 + m <= |recs|
    ensures [recs[c]] + recs[c + 1..c + 1 + m] == recs[c..c + 1 + m]
  {
  }

  /** The records of input `i` yielded from `cursor` on continue its
      stream from record `cursor[i]`, up to its end when the join ends
      normally. */
  predicate ProjectionHolds(streams: seq<Stream>, cursor: seq<nat>, i: nat)
    requires ValidCursor(streams, cursor) && i < |streams|
  {
    ProjectionFits(streams[i].records, cursor[i], Project(JoinFrom(streams, cursor).groups, i),
                   JoinFrom(streams, cursor).end == Done)
  }

  /** `p` continues `recs` from record `c`, up to its end when `complete`. */
  predicate ProjectionFits(recs: seq<Record>, c: nat, p: seq<Record>, complete: bool)
  {
    c + |p| <= |recs| && p == recs[c..c + |p|] && (complete ==> c + |p| == |recs|)
  }

  lemma ProjectionStep(streams: seq<Stream>, cursor: seq<nat>, i: nat)
    requires ValidCursor(streams, cursor) && i < |streams|
    requires CountNone(Heads(streams, cursor)) < |streams| && |Select(Heads(streams, cursor))| > 0
    requires forall k :: 0 <= k < |Select(Heads(streams, cursor))| ==> Select(Heads(streams, cursor))[k] < |streams|
    requires var ids := Select(Heads(streams, cursor));
      var next := Advanced(cursor, ids);
      ValidCursor(streams, next) && FirstFailure(streams, next, ids).None? && ProjectionHolds(streams, next, i)
    ensures ProjectionHolds(streams, cursor, i)
  {
    var heads := Heads(streams, cursor);
    var recs := streams[i].records;
    var ids := Select(heads);
    StepFacts(streams, cursor);
    var next := Advanced(cursor, ids);
    var rest := JoinFrom(streams, next);
    var p' := Project(rest.groups, i);
    var g := GroupOf(heads, ids);
    MemberOfGroup(heads, ids, i);
    assert ([g] + rest.groups)[1..] == rest.groups;
    var r := JoinFrom(streams, cursor);
    assert r == Joined([g] + rest.groups, rest.end);
    var p := Project(r.groups, i);
    assert p == Member(g, i) + p';
    var c := cursor[i];
    if i in ids {
      assert next[i] == c + 1 && heads[i] == Some(recs[c]);
    } else {
      assert next[i] == c;
    }
    ProjectionCons(recs, c, Member(g, i), p', next[i], rest.end == Done);
  }

  /** Prepending the step's member (none, or the record at `c`) to a
      continuation from the advanced position continues from `c`. */
  lemma ProjectionCons(recs: seq<Record>, c: nat, member: seq<Record>, rest: seq<Record>, c2: nat, complete: bool)
    requires ProjectionFits(recs, c2, rest, complete)
    requires (member == [] && c2 == c) || (c < |recs| && member == [recs[c]] && c2 == c + 1)
    ensures ProjectionFits(recs, c, member + rest, complete)
  {
    if member != [] {
      SliceCons(recs, c, |rest|);
    }
  }

  lemma {:induction false} JoinFromProjection(streams: seq<Stream>, cursor: seq<nat>, i: nat)
    requires ValidCursor(streams, cursor) && i < |streams|
    ensures ProjectionHolds(streams, cursor, i)
    decreases Left(streams, cursor, |streams|)
  {
    var heads := Heads(streams, cursor);
    if CountNone(heads) < |streams| {
      var ids := Select(heads);
      if |ids| > 0 {
        StepFacts(streams, cursor);
        var next := Advanced(cursor, ids);
        if FirstFailure(streams, next, ids).None? {
          JoinFromProjection(streams, next, i);
          ProjectionStep(streams, cursor, i);
        }
      }
    } else {
      CountNoneBounds(heads);
      assert heads[i].None?;
    }
  }

  /** Each record of each input appears in exactly one group, in stream
      order: the records of input `i` across the groups are a prefix of its
      stream, and the whole stream when the join ends normally. */
  lemma JoinProjection(streams: seq<Stream>, i: nat)
    requires i < |streams|
    ensures var r := Join(streams);
      var p := Project(r.groups, i);
      |p| <= |streams[i].records| && p == streams[i].records[..|p|]
      && (r.end == Done ==> p == streams[i].records)
  {
    var zeros := Zeros(|streams|);
    if FirstFailure(streams, zeros, Range(|streams|)).None? {
      JoinFromProjection(streams, zeros, i);
    }
  }

  lemma {:induction false} FirstFailurePrefix(streams: seq<Stream>, pos: seq<nat>, ids: seq<nat>, k: nat)
    requires |pos| == |streams| && k <= |ids|
    requires forall j :: 0 <= j < |ids| ==> ids[j] < |streams|
    requires FirstFailure(streams, pos, ids[..k]).Some?
    ensures FirstFailure(streams, pos, ids) == FirstFailure(streams, pos, ids[..k])
    decreases k
  {
    assert k > 0;
    if !PullFails(streams[ids[0]], pos[ids[0]]) {
      assert ids[..k][1..] == ids[1..][..k - 1];
      FirstFailurePrefix(streams, pos, ids[1..], k - 1);
    }
  }

  // ---------------------------------------------------------------------------
  // The buffer-and-advance loop over the decoders
  // ---------------------------------------------------------------------------

  /** The decoders are distinct objects sharing one set of caches. */
  ghost predicate Distinct(parsers: seq<RecordParser>, caches: Caches)
    reads parsers
  {
    (forall i :: 0 <= i < |parsers| ==> parsers[i].caches == caches)
    && forall i, j :: 0 <= i < j < |parsers| ==> parsers[i] != parsers[j]
  }

  /** Decoder `i` has been pulled up to and including record `cursor[i]`,
      which sits in the buffer. */
  ghost predicate Synced(parsers: seq<RecordParser>, streams: seq<Stream>, cursor: seq<nat>)
    reads parsers
    requires ValidCursor(streams, cursor) && |parsers| == |streams|
  {
    forall i {:trigger parsers[i].Remaining()} :: 0 <= i < |streams| && cursor[i] < |streams[i].records| ==>
      parsers[i].Remaining() == After(streams[i], cursor[i] + 1)
  }

  /** `next(p, None)` seen through the decoded stream `s`, of which `at`
      records have already been pulled. */
  method PullOne(p: RecordParser, ghost s: Stream, ghost at: nat) returns (head: Option<Record>, err: Option<Exc>)
    requires at <= |s.records| && p.Remaining() == After(s, at)
    modifies p, p.caches
    ensures err == (if PullFails(s, at) then Some(s.end.error) else None)
    ensures err.None? ==> head == Head(s, at)
    ensures at < |s.records| ==> p.Remaining() == After(s, at + 1)
  {
    PullAdvancesStream(p.lines, p.headers, p.ignoreBadInfo, p.dropBadRecords);
    var pull := p.Next();
    match pull
    case Got(r) =>
      head, err := Some(r), None;
    case Exhausted =>
      head, err := None, None;
    case Failed(e) =>
      head, err := None, Some(e);
  }

  /** `next(parsers[id], None)` for a decoder whose buffered record is
      number `cursor[id]`: the others stay in step. */
  method PullAt(parsers: seq<RecordParser>, caches: Caches, ghost streams: seq<Stream>, ghost cursor: seq<nat>, id: nat)
      returns (head: Option<Record>, err: Option<Exc>)
    requires |parsers| == |streams| && Distinct(parsers, caches)
    requires ValidCursor(streams, cursor) && Synced(parsers, streams, cursor)
    requires id < |streams| && cursor[id] < |streams[id].records|
    modifies parsers[id], caches
    ensures err == (if PullFails(streams[id], cursor[id] + 1) then Some(streams[id].end.error) else None)
    ensures err.None? ==> head == Head(streams[id], cursor[id] + 1)
    ensures ValidCursor(streams, cursor[id := cursor[id] + 1])
    ensures Synced(parsers, streams, cursor[id := cursor[id] + 1])
  {
    SyncedAt(parsers, streams, cursor, id);
    head, err := PullOneOf(parsers, id, streams[id], cursor[id] + 1);
    var next := cursor[id := cursor[id] + 1];
    forall i | 0 <= i < |streams| && next[i] < |streams[i].records|
      ensures parsers[i].Remaining() == After(streams[i], next[i] + 1)
    {
      if i != id {
        assert next[i] == cursor[i];
        assert old(parsers[i].Remaining()) == After(streams[i], cursor[i] + 1);
      } else {
        assert next[i] == cursor[id] + 1;
      }
    }
  }

  /** `PullOne` on decoder `id`, which leaves every other decoder as it was. */
  method PullOneOf(parsers: seq<RecordParser>, id: nat, ghost s: Stream, ghost at: nat)
      returns (head: Option<Record>, err: Option<Exc>)
    requires id < |parsers| && forall i :: 0 <= i < |parsers| && i != id ==> parsers[i] != parsers[id]
    requires at <= |s.records| && parsers[id].Remaining() == After(s, at)
    modifies parsers[id], parsers[id].caches
    ensures err == (if PullFails(s, at) then Some(s.end.error) else None)
    ensures err.None? ==> head == Head(s, at)
    ensures at < |s.records| ==> parsers[id].Remaining() == After(s, at + 1)
    ensures forall i :: 0 <= i < |parsers| && i != id ==> parsers[i].Remaining() == old(parsers[i].Remaining())
  {
    head, err := PullOne(parsers[id], s, at);
  }

  /** One iteration of `for record_id in selected_records_ids`, when the
      first `k` selected decoders have been pulled without an exception:
      pull the next one, replace its buffered record and count it if it
      ran out. */
  method AdvanceOne(parsers: seq<RecordParser>, caches: Caches, ghost streams: seq<Stream>, ghost cursor: seq<nat>,
                    ids: seq<nat>, k: nat, ghost mid: seq<nat>, buffer: seq<Option<Record>>, exhausted: nat)
      returns (buffer': seq<Option<Record>>, exhausted': nat, err: Option<Exc>)
    requires |parsers| == |streams| && Distinct(parsers, caches) && ValidCursor(streams, cursor)
    requires forall j :: 0 <= j < |ids| ==> ids[j] < |streams| && cursor[ids[j]] < |streams[ids[j]].records|
    requires forall j, j' :: 0 <= j < j' < |ids| ==> ids[j] < ids[j']
    requires k < |ids| && mid == Advanced(cursor, ids[..k]) && ValidCursor(streams, mid)
    requires Synced(parsers, streams, mid)
    requires buffer == Heads(streams, mid) && exhausted == CountNone(buffer)
    requires FirstFailure(streams, Advanced(cursor, ids), ids[..k]).None?
    modifies parsers, caches
    ensures err == FirstFailure(streams, Advanced(cursor, ids), ids[..k + 1])
    ensures err.None? ==>
      var mid' := Advanced(cursor, ids[..k + 1]);
      ValidCursor(streams, mid') && Synced(parsers, streams, mid')
      && buffer' == Heads(streams, mid') && exhausted' == CountNone(buffer')
  {
    var id := ids[k];
    AdvanceStep(streams, cursor, ids, k, mid);
    assert Advanced(cursor, ids)[id] == mid[id] + 1;
    var head;
    head, err := PullAt(parsers, caches, streams, mid, id);
    FirstFailureSnoc(streams, Advanced(cursor, ids), ids[..k], id);
    if err.Some? {
      return buffer, exhausted, err;
    }
    BufferStep(streams, cursor, ids, k, mid, buffer, head);
    exhausted' := exhausted;
    if head.None? {
      exhausted' := exhausted' + 1;
    }
    buffer' := buffer[id := head];
  }

  /** `for record_id in selected_records_ids: ...`: pull every selected
      decoder once, in ascending order, replacing its buffered record and
      counting the decoders that run out; the first pull that raises ends
      the join. */
  method AdvanceSelected(parsers: seq<RecordParser>, caches: Caches, ghost streams: seq<Stream>, ghost cursor: seq<nat>,
                         ids: seq<nat>, buffer: seq<Option<Record>>, exhausted: nat)
      returns (buffer': seq<Option<Record>>, exhausted': nat, err: Option<Exc>)
    requires |parsers| == |streams| && Distinct(parsers, caches)
    requires ValidCursor(streams, cursor) && Synced(parsers, streams, cursor)
    requires buffer == Heads(streams, cursor) && exhausted == CountNone(buffer)
    requires forall k :: 0 <= k < |ids| ==> ids[k] < |streams| && cursor[ids[k]] < |streams[ids[k]].records|
    requires forall k, k' :: 0 <= k < k' < |ids| ==> ids[k] < ids[k']
    modifies parsers, caches
    ensures ValidCursor(streams, Advanced(cursor, ids))
    ensures err == FirstFailure(streams, Advanced(cursor, ids), ids)
    ensures err.None? ==>
      var next := Advanced(cursor, ids);
      buffer' == Heads(streams, next) && exhausted' == CountNone(buffer') && Synced(parsers, streams, next)
  {
    AdvancedValid(streams, cursor, ids);
    ghost var next := Advanced(cursor, ids);
    buffer', exhausted', err := buffer, exhausted, None;
    var k := 0;
    assert ids[..0] == [];
    while k < |ids|
      invariant k <= |ids|
      invariant ValidCursor(streams, Advanced(cursor, ids[..k]))
      invariant Synced(parsers, streams, Advanced(cursor, ids[..k]))
      invariant buffer' == Heads(streams, Advanced(cursor, ids[..k])) && exhausted' == CountNone(buffer')
      invariant FirstFailure(streams, next, ids[..k]).None? && err.None?
    {
      buffer', exhausted', err := AdvanceOne(parsers, caches, streams, cursor, ids, k, Advanced(cursor, ids[..k]), buffer', exhausted');
      if err.Some? {
        FirstFailurePrefix(streams, next, ids, k + 1);
        return;
      }
      k := k + 1;
    }
    assert ids[..k] == ids;
  }

  lemma SyncedAt(parsers: seq<RecordParser>, streams: seq<Stream>, cursor: seq<nat>, id: nat)
    requires |parsers| == |streams| && ValidCursor(streams, cursor) && Synced(parsers, streams, cursor)
    requires id < |streams| && cursor[id] < |streams[id].records|
    ensures parsers[id].Remaining() == After(streams[id], cursor[id] + 1)
  {
  }

  /** Pulling the `k`-th selected decoder advances the cursor by one more
      selected id; that decoder has not been pulled yet in this round. */
  lemma AdvanceStep(streams: seq<Stream>, cursor: seq<nat>, ids: seq<nat>, k: nat, mid: seq<nat>)
    requires ValidCursor(streams, cursor) && k < |ids|
    requires forall j :: 0 <= j < |ids| ==> ids[j] < |streams| && cursor[ids[j]] < |streams[ids[j]].records|
    requires forall j, j' :: 0 <= j < j' < |ids| ==> ids[j] < ids[j']
    requires mid == Advanced(cursor, ids[..k])
    ensures ids[..k + 1] == ids[..k] + [ids[k]]
    ensures mid[ids[k]] == cursor[ids[k]] < |streams[ids[k]].records|
    ensures mid[ids[k] := mid[ids[k]] + 1] == Advanced(cursor, ids[..k + 1])
  {
    assert ids[..k + 1] == ids[..k] + [ids[k]];
    assert ids[k] !in ids[..k];
    AdvancedSnoc(cursor, ids[..k], ids[k]);
  }

  /** The buffer after the `k`-th selected decoder's record is replaced. */
  lemma BufferStep(streams: seq<Stream>, cursor: seq<nat>, ids: seq<nat>, k: nat, mid: seq<nat>,
                   buffer: seq<Option<Record>>, head: Option<Record>)
    requires ValidCursor(streams, cursor) && k < |ids|
    requires forall j :: 0 <= j < |ids| ==> ids[j] < |streams| && cursor[ids[j]] < |streams[ids[j]].records|
    requires forall j, j' :: 0 <= j < j' < |ids| ==> ids[j] < ids[j']
    requires mid == Advanced(cursor, ids[..k]) && buffer == Heads(streams, mid)
    requires head == Head(streams[ids[k]], mid[ids[k]] + 1)
    ensures buffer[ids[k] := head] == Heads(streams, Advanced(cursor, ids[..k + 1]))
    ensures CountNone(buffer[ids[k] := head]) == CountNone(buffer) + (if head.None? then 1 else 0)
  {
    AdvanceStep(streams, cursor, ids, k, mid);
    CountNoneUpdate(buffer, ids[k], head);
    HeadsUpdate(streams, mid, ids[k], mid[ids[k]] + 1);
  }

  lemma AdvancedValid(streams: seq<Stream>, cursor: seq<nat>, ids: seq<nat>)
    requires ValidCursor(streams, cursor)
    requires forall k :: 0 <= k < |ids| ==> ids[k] < |streams| && cursor[ids[k]] < |streams[ids[k]].records|
    ensures ValidCursor(streams, Advanced(cursor, ids))
  {
    forall i | 0 <= i < |streams| && i in ids ensures cursor[i] < |streams[i].records| {
      var k :| 0 <= k < |ids| && ids[k] == i;
    }
  }

  lemma AdvancedSnoc(cursor: seq<nat>, ids: seq<nat>, id: nat)
    requires id < |cursor| && id !in ids
    ensures Advanced(cursor, ids + [id]) == Advanced(cursor, ids)[id := cursor[id] + 1]
  {
  }

  lemma HeadsUpdate(streams: seq<Stream>, cursor: seq<nat>, id: nat, c: nat)
    requires |cursor| == |streams| && id < |streams|
    ensures Heads(streams, cursor)[id := Head(streams[id], c)] == Heads(streams, cursor[id := c])
  {
  }

  /** `tuple(parse_records(fs, head, ignore_bad_info=ignore_bad_info) for fs,
      head in fs_headers_touple_list)`: fresh decoders that never drop
      bad records, one per input, all writing to the same caches. */
  method MakeParsers(inputs: seq<(seq<string>, Headers)>, ignore: bool, caches: Caches)
      returns (parsers: seq<RecordParser>)
    ensures |parsers| == |inputs| && Distinct(parsers, caches)
    ensures forall i :: 0 <= i < |inputs| ==> fresh(parsers[i])
    ensures Unpulled(parsers, Streams(inputs, ignore), 0)
  {
    parsers := [];
    for i := 0 to |inputs|
      invariant |parsers| == i && Distinct(parsers, caches)
      invariant forall j :: 0 <= j < i ==> fresh(parsers[j])
      invariant forall j :: 0 <= j < i ==> FreshParser(parsers[j], inputs[j], ignore)
    {
      var p := new RecordParser(inputs[i].0, inputs[i].1, ignore, false, caches);
      parsers := parsers + [p];
    }
    ghost var streams := Streams(inputs, ignore);
    forall j | 0 <= j < |inputs| ensures parsers[j].Remaining() == After(streams[j], 0) {
      assert streams[j].records[0..] == streams[j].records;
    }
  }

  /** A decoder over the whole of one input, bad records not dropped. */
  ghost predicate FreshParser(p: RecordParser, input: (seq<string>, Headers), ignore: bool)
    reads p
  {
    p.lines == input.0 && p.headers == input.1 && p.ignoreBadInfo == ignore && !p.dropBadRecords
  }

  /** Decoders `from` onwards have not been pulled yet. */
  ghost predicate Unpulled(parsers: seq<RecordParser>, streams: seq<Stream>, from: nat)
    reads parsers
    requires |parsers| == |streams|
  {
    forall j {:trigger parsers[j].Remaining()} :: from <= j < |streams| ==> parsers[j].Remaining() == After(streams[j], 0)
  }

  /** Decoders before `upto` have been pulled once. */
  ghost predicate PulledOnce(parsers: seq<RecordParser>, streams: seq<Stream>, upto: nat)
    reads parsers
    requires |parsers| == |streams|
  {
    forall j {:trigger parsers[j].Remaining()} :: 0 <= j < upto && j < |streams| && 0 < |streams[j].records| ==>
      parsers[j].Remaining() == After(streams[j], 1)
  }

  /** The first pull of decoder `i`; the others are left as they were. */
  method PullFirst(parsers: seq<RecordParser>, caches: Caches, ghost streams: seq<Stream>, i: nat)
      returns (head: Option<Record>, err: Option<Exc>)
    requires |parsers| == |streams| && Distinct(parsers, caches) && i < |streams|
    requires Unpulled(parsers, streams, i) && PulledOnce(parsers, streams, i)
    modifies parsers[i], caches
    ensures err == (if PullFails(streams[i], 0) then Some(streams[i].end.error) else None)
    ensures err.None? ==> head == Head(streams[i], 0)
    ensures Unpulled(parsers, streams, i + 1) && PulledOnce(parsers, streams, i + 1)
  {
    head, err := PullOne(parsers[i], streams[i], 0);
    forall j | 0 <= j < |streams| && j != i ensures parsers[j].Remaining() == old(parsers[j].Remaining()) {
      assert parsers[j] != parsers[i];
    }
  }

  /** `record_buffer = list(next(p, None) for p in parsers)`: the first
      pull of every decoder, in order; the first one that raises ends the
      join. */
  method FirstPulls(parsers: seq<RecordParser>, caches: Caches, ghost streams: seq<Stream>)
      returns (buffer: seq<Option<Record>>, err: Option<Exc>)
    requires |parsers| == |streams| && Distinct(parsers, caches)
    requires Unpulled(parsers, streams, 0)
    modifies parsers, caches
    ensures err == FirstFailure(streams, Zeros(|streams|), Range(|streams|))
    ensures err.None? ==> buffer == Heads(streams, Zeros(|streams|)) && Synced(parsers, streams, Zeros(|streams|))
  {
    var n := |parsers|;
    ghost var zeros := Zeros(n);
    ghost var range := Range(n);
    buffer, err := [], None;
    for i := 0 to n
      invariant |buffer| == i && err.None?
      invariant forall j :: 0 <= j < i ==> buffer[j] == Head(streams[j], 0)
      invariant FirstFailure(streams, zeros, range[..i]).None?
      invariant Unpulled(parsers, streams, i) && PulledOnce(parsers, streams, i)
    {
      var head;
      head, err := PullFirst(parsers, caches, streams, i);
      assert range[..i + 1] == range[..i] + [i];
      FirstFailureSnoc(streams, zeros, range[..i], i);
      if err.Some? {
        FirstFailurePrefix(streams, zeros, range, i + 1);
        return;
      }
      buffer := buffer + [head];
    }
    assert range[..n] == range;
  }

  /** `exhausted_parsers = sum(1 if record is None else 0 for record in
      record_buffer)`. */
  method CountExhausted(buffer: seq<Option<Record>>) returns (exhausted: nat)
    ensures exhausted == CountNone(buffer)
  {
    exhausted := 0;
    for i := 0 to |buffer|
      invariant exhausted == CountNone(buffer[..i])
    {
      assert buffer[..i + 1][..i] == buffer[..i];
      if buffer[i] == None {
        exhausted := exhausted + 1;
      }
    }
    assert buffer[..|buffer|] == buffer;
  }

  /** One pass of the `while` loop of `parse_records_together`: select the
      lowest heads, advance their decoders, and yield the group; or stop,
      because a pull raised (`Aborted`) or because nothing was selected
      (`Stalled`: the generator would yield empty groups for ever). */
  method JoinRound(parsers: seq<RecordParser>, caches: Caches, ghost streams: seq<Stream>, ghost cursor: seq<nat>,
                   buffer: seq<Option<Record>>, exhausted: nat)
      returns (group: Group, buffer': seq<Option<Record>>, exhausted': nat, stop: Option<JoinEnd>, ghost next: seq<nat>)
    requires |parsers| == |streams| && Distinct(parsers, caches)
    requires ValidCursor(streams, cursor) && Synced(parsers, streams, cursor)
    requires buffer == Heads(streams, cursor) && exhausted == CountNone(buffer) && exhausted < |streams|
    modifies parsers, caches
    ensures stop.Some? ==> JoinFrom(streams, cursor) == Joined([], stop.value)
    ensures stop.None? ==>
      ValidCursor(streams, next) && Synced(parsers, streams, next)
      && buffer' == Heads(streams, next) && exhausted' == CountNone(buffer')
      && Left(streams, next, |streams|) < Left(streams, cursor, |streams|)
      && JoinFrom(streams, cursor) == Joined([group] + JoinFrom(streams, next).groups, JoinFrom(streams, next).end)
  {
    var ids, selected := SelectLowest(buffer);
    next := cursor;
    if |ids| == 0 {
      return [], buffer, exhausted, Some(Stalled), next;
    }
    StepFacts(streams, cursor);
    group := seq(|ids|, k requires 0 <= k < |ids| => (ids[k], selected[k]));
    assert group == GroupOf(buffer, ids);
    var err;
    buffer', exhausted', err := AdvanceSelected(parsers, caches, streams, cursor, ids, buffer, exhausted);
    next := Advanced(cursor, ids);
    if err.Some? {
      return group, buffer', exhausted', Some(Aborted(err.value)), next;
    }
    stop := None;
  }

  /** `parse_records_together(fs_headers_touple_list, ignore_bad_info)`
      consumed to its end: the groups it yields and how it stops. With no
      exception and no stall, every record of every input is in exactly one
      group (`JoinProjection`), and each group is a well-formed set of
      lowest heads (`JoinShape`). */
  method ParseRecordsTogether(inputs: seq<(seq<string>, Headers)>, ignore: bool, caches: Caches)
      returns (groups: seq<Group>, end: JoinEnd)
    modifies caches
    ensures Joined(groups, end) == Join(Streams(inputs, ignore))
  {
    ghost var streams := Streams(inputs, ignore);
    var n := |inputs|;
    var parsers := MakeParsers(inputs, ignore, caches);
    var buffer, err := FirstPulls(parsers, caches, streams);
    if err.Some? {
      return [], Aborted(err.value);
    }
    var exhausted := CountExhausted(buffer);
    groups, end := JoinLoop(parsers, caches, streams, Zeros(n), buffer, exhausted);
  }

  /** `while exhausted_parsers < len(fs_headers_touple_list): ...` from the
      buffer of heads at `start`. */
  method JoinLoop(parsers: seq<RecordParser>, caches: Caches, ghost streams: seq<Stream>, ghost start: seq<nat>,
                  buffer: seq<Option<Record>>, exhausted: nat)
      returns (groups: seq<Group>, end: JoinEnd)
    requires |parsers| == |streams| && Distinct(parsers, caches)
    requires ValidCursor(streams, start) && Synced(parsers, streams, start)
    requires buffer == Heads(streams, start) && exhausted == CountNone(buffer)
    modifies parsers, caches
    ensures Joined(groups, end) == JoinFrom(streams, start)
  {
    var n := |parsers|;
    var buffer, exhausted := buffer, exhausted;
    ghost var cursor := start;
    groups := [];
    assert groups + JoinFrom(streams, cursor).groups == JoinFrom(streams, cursor).groups;
    while exhausted < n
      invariant ValidCursor(streams, cursor) && Synced(parsers, streams, cursor)
      invariant buffer == Heads(streams, cursor) && exhausted == CountNone(buffer)
      invariant JoinFrom(streams, start)
             == Joined(groups + JoinFrom(streams, cursor).groups, JoinFrom(streams, cursor).end)
      decreases Left(streams, cursor, n)
    {
      var group, stop;
      ghost var next;
      group, buffer, exhausted, stop, next := JoinRound(parsers, caches, streams, cursor, buffer, exhausted);
      if stop.Some? {
        assert groups + [] == groups;
        return groups, stop.value;
      }
      ghost var rest := JoinFrom(streams, next);
      assert groups + ([group] + rest.groups) == (groups + [group]) + rest.groups;
      groups := groups + [group];
      cursor := next;
    }
    assert groups + [] == groups;
    return groups, Done;
  }
}
