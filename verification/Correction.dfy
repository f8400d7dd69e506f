/**
 LLM correction of doubtful text lines (_apply_llm_correction in ocr-service/app.py). The language model
 and the similarity measure are arbitrary.
 */
module Correction {
  import opened CorrectionChunks
  import opened Layout
  import opened Options

  /** What the provider gives for one chunk. */
  datatype Reply = Lines(lines: seq<string>) | Failed(err: string) | Nothing

  /** `unavailable`: why the model cannot be used, None if it can. */
  datatype Settings = Settings(
    enabled: bool,
    noProvider: bool,
    unavailable: Option<string>,
    threshold: real,
    chunkChars: int,
    minSimilarity: real,
    correct: (nat, seq<Block>) -> Reply,
    similarity: (string, string) -> real)

  datatype Stats = Stats(reason: string, considered: nat, corrected: nat, applied: bool)

  // ---- One line ----------------------------------------------------------------------------------

  /** Python's round to four decimals: half to even. */
  function Round4(x: real): real {
    var n := (x * 10000.0).Floor;
    var rest := x * 10000.0 - n as real;
    (if rest < 0.5 || (rest == 0.5 && n % 2 == 0) then n else n + 1) as real / 10000.0
  }

  function Boost(confidence: real): real {
    Round4(RMin(1.0, RMax(confidence, 0.90)))
  }

  predicate Rejected(s: Settings, b: Block, line: string) {
    line != b.text && s.similarity(b.text, line) < s.minSimilarity
  }

  function Fixed(s: Settings, b: Block, line: string): Block {
    if line == b.text || Rejected(s, b, line) then b
    else b.(text := line, confidence := Boost(b.confidence))
  }

  // ---- One chunk -----------------------------------------------------------------------------------

  datatype Job = Job(group: seq<nat>, reply: Reply)

  predicate Accepted(job: Job) {
    job.reply.Lines? && |job.reply.lines| == |job.group|
  }

  function AfterLines(s: Settings, blocks: seq<Block>, group: seq<nat>, lines: seq<string>, n: nat): (after: seq<Block>)
    requires n <= |group| == |lines| && InRange(group, |blocks|)
    ensures |after| == |blocks|
  {
    if n == 0 then blocks
    else
      var before := AfterLines(s, blocks, group, lines, n - 1);
      before[group[n - 1] := Fixed(s, before[group[n - 1]], lines[n - 1])]
  }

  function AfterJob(s: Settings, blocks: seq<Block>, job: Job): (after: seq<Block>)
    requires InRange(job.group, |blocks|)
    ensures |after| == |blocks|
  {
    if Accepted(job) then AfterLines(s, blocks, job.group, job.reply.lines, |job.group|) else blocks
  }

  ghost predicate JobsInRange(jobs: seq<Job>, n: nat) {
    forall k :: 0 <= k < |jobs| ==> InRange(jobs[k].group, n)
  }

  /** The blocks after all jobs, one after the other. */
  ghost function AfterJobs(s: Settings, blocks: seq<Block>, jobs: seq<Job>): (after: seq<Block>)
    requires JobsInRange(jobs, |blocks|)
    ensures |after| == |blocks|
  {
    if jobs == [] then blocks
    else AfterJob(s, AfterJobs(s, blocks, jobs[..|jobs| - 1]), jobs[|jobs| - 1])
  }

  // ---- What a block becomes -------------------------------------------------------------------------

  /** The job proposes this line for block `i`. */
  ghost predicate Proposes(job: Job, i: nat, line: string) {
    Accepted(job) && exists l :: 0 <= l < |job.group| && job.group[l] == i && job.reply.lines[l] == line
  }

  ghost predicate NoDuplicates(group: seq<nat>) {
    forall k, l :: 0 <= k < l < |group| ==> group[k] != group[l]
  }

  /** No block is in two jobs, or twice in one. */
  ghost predicate Separate(jobs: seq<Job>) {
    && (forall k :: 0 <= k < |jobs| ==> NoDuplicates(jobs[k].group))
    && (forall k, l, i :: 0 <= k < l < |jobs| && i in jobs[k].group ==> i !in jobs[l].group)
  }

  lemma {:induction false} AfterLinesAt(s: Settings, blocks: seq<Block>, group: seq<nat>, lines: seq<string>, n: nat,
                                        i: nat)
    requires n <= |group| == |lines| && InRange(group, |blocks|) && NoDuplicates(group) && i < |blocks|
    ensures forall l :: 0 <= l < n && group[l] == i ==>
              AfterLines(s, blocks, group, lines, n)[i] == Fixed(s, blocks[i], lines[l])
    ensures i !in group[..n] ==> AfterLines(s, blocks, group, lines, n)[i] == blocks[i]
  {
    hide Fixed;
    if n > 0 {
      AfterLinesAt(s, blocks, group, lines, n - 1, i);
      assert group[..n] == group[..n - 1] + [group[n - 1]];
      if group[n - 1] == i {
        assert i !in group[..n - 1];
      }
    }
  }

  /** One job: a block it proposes a line for gets that line if it is similar enough, any other stays. */
  lemma {:induction false} AfterJobAt(s: Settings, blocks: seq<Block>, job: Job, i: nat)
    requires InRange(job.group, |blocks|) && NoDuplicates(job.group) && i < |blocks|
    ensures forall line :: Proposes(job, i, line) ==> AfterJob(s, blocks, job)[i] == Fixed(s, blocks[i], line)
    ensures (forall line :: !Proposes(job, i, line)) ==> AfterJob(s, blocks, job)[i] == blocks[i]
    ensures i !in job.group ==> forall line :: !Proposes(job, i, line)
  {
    hide Fixed, AfterLines;
    if Accepted(job) {
      AfterLinesAt(s, blocks, job.group, job.reply.lines, |job.group|, i);
      assert job.group[..|job.group|] == job.group;
      if i in job.group {
        var l :| 0 <= l < |job.group| && job.group[l] == i;
        assert Proposes(job, i, job.reply.lines[l]);
      }
    }
  }

  ghost predicate SomeJobProposes(jobs: seq<Job>, i: nat, line: string) {
    exists k :: 0 <= k < |jobs| && Proposes(jobs[k], i, line)
  }

  lemma {:induction false} SeparateFront(jobs: seq<Job>)
    requires jobs != [] && Separate(jobs)
    ensures Separate(jobs[..|jobs| - 1]) && NoDuplicates(jobs[|jobs| - 1].group)
  {
    hide NoDuplicates;
  }

  lemma {:induction false} SnocProposes(jobs: seq<Job>, i: nat, line: string)
    requires jobs != []
    ensures SomeJobProposes(jobs, i, line) <==>
            SomeJobProposes(jobs[..|jobs| - 1], i, line) || Proposes(jobs[|jobs| - 1], i, line)
  {
    hide Proposes;
    var front := jobs[..|jobs| - 1];
    if k :| 0 <= k < |jobs| && Proposes(jobs[k], i, line) {
      assert k < |front| ==> Proposes(front[k], i, line);
    }
    if k :| 0 <= k < |front| && Proposes(front[k], i, line) {
      assert Proposes(jobs[k], i, line);
    }
  }

  lemma {:induction false} OnlyOneProposes(jobs: seq<Job>, i: nat, line: string, line': string)
    requires jobs != [] && Separate(jobs)
    requires SomeJobProposes(jobs[..|jobs| - 1], i, line)
    ensures !Proposes(jobs[|jobs| - 1], i, line')
  {
    var front := jobs[..|jobs| - 1];
    var k :| 0 <= k < |front| && Proposes(front[k], i, line);
    assert i in jobs[k].group;
    assert i !in jobs[|jobs| - 1].group;
  }

  /**
   All jobs: a block some job proposes a line for becomes that line's correction of the original block, every
   other block is untouched.
   */
  lemma {:induction false} AfterJobsAt(s: Settings, blocks: seq<Block>, jobs: seq<Job>, i: nat)
    requires JobsInRange(jobs, |blocks|) && Separate(jobs) && i < |blocks|
    ensures forall line :: SomeJobProposes(jobs, i, line) ==> AfterJobs(s, blocks, jobs)[i] == Fixed(s, blocks[i], line)
    ensures (forall line :: !SomeJobProposes(jobs, i, line)) ==> AfterJobs(s, blocks, jobs)[i] == blocks[i]
  {
    hide Fixed, AfterJob, Proposes, Separate, NoDuplicates, SomeJobProposes, InRange;
    if jobs == [] {
      NoJobProposes(i);
    } else {
      var front, last := jobs[..|jobs| - 1], jobs[|jobs| - 1];
      SeparateFront(jobs);
      AfterJobsAt(s, blocks, front, i);
      AfterJobAt(s, AfterJobs(s, blocks, front), last, i);
      forall line
        ensures SomeJobProposes(jobs, i, line) <==> SomeJobProposes(front, i, line) || Proposes(last, i, line)
      {
        SnocProposes(jobs, i, line);
      }
      forall line, line' | SomeJobProposes(front, i, line)
        ensures !Proposes(last, i, line')
      {
        OnlyOneProposes(jobs, i, line, line');
      }
      forall line | SomeJobProposes(jobs, i, line)
        ensures AfterJobs(s, blocks, jobs)[i] == Fixed(s, blocks[i], line)
      {
        if !SomeJobProposes(front, i, line) {
          assert Proposes(last, i, line);
        }
      }
    }
  }

  lemma {:induction false} NoJobProposes(i: nat)
    ensures forall line :: !SomeJobProposes([], i, line)
  {
  }

  /** The order of the chunks does not matter, given their replies. */
  lemma {:induction false} OrderIndependent(s: Settings, blocks: seq<Block>, jobs: seq<Job>, jobs': seq<Job>)
    requires JobsInRange(jobs, |blocks|) && JobsInRange(jobs', |blocks|) && Separate(jobs) && Separate(jobs')
    requires multiset(jobs) == multiset(jobs')
    ensures AfterJobs(s, blocks, jobs) == AfterJobs(s, blocks, jobs')
  {
    hide Fixed, AfterJob, AfterJobs, Proposes, Separate, SomeJobProposes, JobsInRange;
    forall i: nat | i < |blocks|
      ensures AfterJobs(s, blocks, jobs)[i] == AfterJobs(s, blocks, jobs')[i]
    {
      AfterJobsAt(s, blocks, jobs, i);
      AfterJobsAt(s, blocks, jobs', i);
      forall line
        ensures SomeJobProposes(jobs, i, line) <==> SomeJobProposes(jobs', i, line)
      {
        SameProposals(jobs, jobs', i, line);
        SameProposals(jobs', jobs, i, line);
      }
      if line :| SomeJobProposes(jobs, i, line) {
        assert SomeJobProposes(jobs', i, line);
      }
    }
  }

  lemma {:induction false} SameProposals(jobs: seq<Job>, jobs': seq<Job>, i: nat, line: string)
    requires multiset(jobs) == multiset(jobs')
    ensures SomeJobProposes(jobs, i, line) ==> SomeJobProposes(jobs', i, line)
  {
    hide Proposes;
    if k :| 0 <= k < |jobs| && Proposes(jobs[k], i, line) {
      assert jobs[k] in multiset(jobs');
      var l :| 0 <= l < |jobs'| && jobs'[l] == jobs[k];
      assert Proposes(jobs'[l], i, line);
    }
  }

  // ---- The whole run -----------------------------------------------------------------------------------

  function Sub(blocks: seq<Block>, group: seq<nat>): seq<Block>
    requires InRange(group, |blocks|)
  {
    seq(|group|, k requires 0 <= k < |group| && InRange(group, |blocks|) => blocks[group[k]])
  }

  ghost predicate ChunksInRange(chunks: seq<seq<nat>>, n: nat) {
    forall k :: 0 <= k < |chunks| ==> InRange(chunks[k], n)
  }

  /** The chunks with the replies their original lines get. */
  ghost function Jobs(s: Settings, blocks: seq<Block>, chunks: seq<seq<nat>>): (jobs: seq<Job>)
    requires ChunksInRange(chunks, |blocks|)
    ensures |jobs| == |chunks| && JobsInRange(jobs, |blocks|)
    ensures forall k: nat :: k < |chunks| ==> jobs[k] == Job(chunks[k], s.correct(k, Sub(blocks, chunks[k])))
  {
    seq(|chunks|, k requires 0 <= k < |chunks| && ChunksInRange(chunks, |blocks|) =>
      Job(chunks[k], s.correct(k, Sub(blocks, chunks[k]))))
  }

  /** The chunking the run uses. */
  ghost predicate Chunked(s: Settings, blocks: seq<Block>, chunks: seq<seq<nat>>) {
    && Flat(chunks) == LowIndexes(blocks, s.threshold, |blocks|)
    && Packed(blocks, s.chunkChars, chunks)
    && ChunksInRange(chunks, |blocks|)
  }

  lemma {:induction false} PackedInRange(blocks: seq<Block>, maxChars: int, chunks: seq<seq<nat>>)
    requires Packed(blocks, maxChars, chunks)
    ensures ChunksInRange(chunks, |blocks|)
  {
    hide Chars;
    forall k | 0 <= k < |chunks|
      ensures InRange(chunks[k], |blocks|)
    {
      assert ChunkFits(blocks, maxChars, chunks[k]);
    }
  }

  lemma {:induction false} InFlat(chunks: seq<seq<nat>>, k: nat, i: nat)
    requires k < |chunks| && i in chunks[k]
    ensures i in Flat(chunks)
  {
    if k < |chunks| - 1 {
      InFlat(chunks[..|chunks| - 1], k, i);
    }
  }

  lemma {:induction false} IncreasingParts(a: seq<nat>, b: seq<nat>)
    requires Increasing(a + b)
    ensures Increasing(a) && NoDuplicates(b) && forall i :: i in a ==> i !in b
  {
    forall k, l | 0 <= k < l < |a|
      ensures a[k] < a[l]
    {
      assert (a + b)[k] < (a + b)[l];
    }
    forall k, l | 0 <= k < l < |b|
      ensures b[k] != b[l]
    {
      assert (a + b)[|a| + k] < (a + b)[|a| + l];
    }
    forall k, l | 0 <= k < |a| && 0 <= l < |b|
      ensures a[k] != b[l]
    {
      assert (a + b)[k] < (a + b)[|a| + l];
    }
  }

  lemma {:induction false} SeparateSnoc(jobs: seq<Job>, last: Job)
    requires Separate(jobs) && NoDuplicates(last.group)
    requires forall k, i :: 0 <= k < |jobs| && i in jobs[k].group ==> i !in last.group
    ensures Separate(jobs + [last])
  {
    hide NoDuplicates;
  }

  /** Every doubtful line is in one chunk only. */
  lemma {:induction false} JobsSeparate(s: Settings, blocks: seq<Block>, chunks: seq<seq<nat>>)
    requires ChunksInRange(chunks, |blocks|) && Increasing(Flat(chunks))
    ensures Separate(Jobs(s, blocks, chunks))
  {
    if chunks != [] {
      var front, last := chunks[..|chunks| - 1], chunks[|chunks| - 1];
      IncreasingParts(Flat(front), last);
      JobsSeparate(s, blocks, front);
      var jobs := Jobs(s, blocks, chunks);
      assert jobs == Jobs(s, blocks, front) + [jobs[|chunks| - 1]];
      forall k: nat, i | k < |front| && i in front[k]
        ensures i !in last
      {
        InFlat(front, k, i);
      }
      hide Flat, Increasing, Separate, NoDuplicates;
      SeparateSnoc(Jobs(s, blocks, front), jobs[|chunks| - 1]);
    }
  }

  lemma {:induction false} ChunkedSeparate(s: Settings, blocks: seq<Block>, chunks: seq<seq<nat>>)
    requires Chunked(s, blocks, chunks)
    ensures Separate(Jobs(s, blocks, chunks))
  {
    LowIndexesFacts(blocks, s.threshold, |blocks|);
    JobsSeparate(s, blocks, chunks);
  }

  /** Why a chunk was skipped: the provider's word, or a count that does not match. */
  function Skipped(job: Job): string {
    match job.reply
    case Failed(err) => if err == "" then "correction_failed" else err
    case Nothing => "correction_failed"
    case Lines(_) => "line_count_mismatch"
  }

  function LastReason(jobs: seq<Job>): string {
    if jobs == [] then ""
    else if Accepted(jobs[|jobs| - 1]) then LastReason(jobs[..|jobs| - 1])
    else Skipped(jobs[|jobs| - 1])
  }

  function Changed(blocks: seq<Block>, after: seq<Block>): nat
    requires |blocks| == |after|
  {
    if blocks == [] then 0
    else
      var last := |blocks| - 1;
      Changed(blocks[..last], after[..last]) + if after[last].text != blocks[last].text then 1 else 0
  }

  /** Before any chunk is sent: the reason to leave the page alone, None to go on. */
  function Gate(s: Settings, blocks: seq<Block>): Option<string> {
    if blocks == [] then Some("no_blocks")
    else if !s.enabled then Some("correction_not_enabled_for_request")
    else if s.noProvider then Some("correction_provider_unavailable")
    else
      match s.unavailable
      case Some(reason) => Some(if reason == "" then "model_unavailable" else reason)
      case None => if LowIndexes(blocks, s.threshold, |blocks|) == [] then Some("no_low_confidence_blocks") else None
  }

  /** The outcome of a run that sends its doubtful lines in these chunks. */
  ghost predicate Ran(s: Settings, blocks: seq<Block>, chunks: seq<seq<nat>>, after: seq<Block>, stats: Stats) {
    && Chunked(s, blocks, chunks)
    && var jobs := Jobs(s, blocks, chunks);
       && after == AfterJobs(s, blocks, jobs)
       && stats.considered == |LowIndexes(blocks, s.threshold, |blocks|)|
       && stats.corrected == Changed(blocks, after) && stats.applied == (stats.corrected > 0)
       && stats.reason ==
            if stats.applied then "ok" else if LastReason(jobs) == "" then "no_changes" else LastReason(jobs)
  }

  method ApplyLlmCorrection(s: Settings, blocks: seq<Block>) returns (after: seq<Block>, stats: Stats)
    ensures Gate(s, blocks).Some? ==> after == blocks && stats == Stats(Gate(s, blocks).value, 0, 0, false)
    ensures Gate(s, blocks).None? ==> exists chunks :: Ran(s, blocks, chunks, after, stats)
  {
    hide LowIndexes, Packed, Flat, Changed, LastReason, AfterJobs;
    if blocks == [] {
      return blocks, Stats("no_blocks", 0, 0, false);
    }
    if !s.enabled {
      return blocks, Stats("correction_not_enabled_for_request", 0, 0, false);
    }
    if s.noProvider {
      return blocks, Stats("correction_provider_unavailable", 0, 0, false);
    }
    if s.unavailable.Some? {
      return blocks, Stats(if s.unavailable.value == "" then "model_unavailable" else s.unavailable.value, 0, 0, false);
    }
    var chunks := ChunkLowConfidenceBlocks(blocks, s.threshold, s.chunkChars);
    FlatNothing(blocks, s.chunkChars, chunks);
    if chunks == [] {
      return blocks, Stats("no_low_confidence_blocks", 0, 0, false);
    }
    PackedInRange(blocks, s.chunkChars, chunks);
    var reason, considered;
    after, reason, considered := CorrectChunks(s, blocks, chunks);
    var corrected := CountChanged(blocks, after);
    var applied := corrected > 0;
    stats :=
      Stats(if applied then "ok" else if reason == "" then "no_changes" else reason, considered, corrected, applied);
    assert Ran(s, blocks, chunks, after, stats);
  }

  lemma {:induction false} FlatNothing(blocks: seq<Block>, maxChars: int, chunks: seq<seq<nat>>)
    requires Packed(blocks, maxChars, chunks)
    ensures Flat(chunks) == [] <==> chunks == []
  {
    if chunks != [] {
      assert ChunkFits(blocks, maxChars, chunks[|chunks| - 1]);
    }
  }

  /** The loop over the chunks. */
  method CorrectChunks(s: Settings, blocks: seq<Block>, chunks: seq<seq<nat>>)
      returns (corrected: seq<Block>, reason: string, considered: nat)
    requires Chunked(s, blocks, chunks)
    ensures var jobs := Jobs(s, blocks, chunks);
            corrected == AfterJobs(s, blocks, jobs) && reason == LastReason(jobs) && considered == |Flat(chunks)|
  {
    hide *;
    ChunksAreInRange(s, blocks, chunks);
    ghost var jobs := Jobs(s, blocks, chunks);
    ChunkedSeparate(s, blocks, chunks);
    PrefixesInRange(jobs, |blocks|);
    NoJobs(s, blocks);
    corrected, reason, considered := blocks, "", 0;
    assert jobs[..0] == [] && chunks[..0] == [];
    for k := 0 to |chunks|
      invariant |corrected| == |blocks| && corrected == AfterJobs(s, blocks, jobs[..k])
      invariant reason == LastReason(jobs[..k]) && considered == |Flat(chunks[..k])|
    {
      var group := chunks[k];
      SameLines(s, blocks, jobs, k);
      SnocJob(s, blocks, jobs, k);
      GroupInRange(jobs, |blocks|, k);
      var reply := s.correct(k, Sub(corrected, group));
      corrected, reason := CorrectChunk(s, corrected, Job(group, reply), reason);
      considered := considered + |group|;
      assert chunks[..k + 1] == chunks[..k] + [group];
      FlatSnoc(chunks[..k], group);
    }
    assert jobs[..|chunks|] == jobs && chunks[..|chunks|] == chunks;
  }

  lemma {:induction false} ChunksAreInRange(s: Settings, blocks: seq<Block>, chunks: seq<seq<nat>>)
    requires Chunked(s, blocks, chunks)
    ensures ChunksInRange(chunks, |blocks|)
  {
  }

  lemma {:induction false} PrefixesInRange(jobs: seq<Job>, n: nat)
    requires JobsInRange(jobs, n)
    ensures forall k: nat :: k <= |jobs| ==> JobsInRange(jobs[..k], n)
  {
  }

  lemma {:induction false} GroupInRange(jobs: seq<Job>, n: nat, k: nat)
    requires JobsInRange(jobs, n) && k < |jobs|
    ensures InRange(jobs[k].group, n)
  {
  }

  /** The body of the loop: a reply that cannot be used leaves the reason why. */
  method CorrectChunk(s: Settings, before: seq<Block>, job: Job, lastReason: string)
      returns (corrected: seq<Block>, reason: string)
    requires InRange(job.group, |before|)
    ensures corrected == AfterJob(s, before, job)
    ensures reason == if Accepted(job) then lastReason else Skipped(job)
  {
    hide AfterLines, Skipped;
    corrected, reason := before, lastReason;
    if !job.reply.Lines? || |job.reply.lines| != |job.group| {
      reason := Skipped(job);
    } else {
      corrected := CorrectLines(s, before, job.group, job.reply.lines);
    }
  }

  lemma {:induction false} NoJobs(s: Settings, blocks: seq<Block>)
    ensures AfterJobs(s, blocks, []) == blocks && LastReason([]) == "" && Flat([]) == []
  {
  }

  lemma {:induction false} SnocJob(s: Settings, blocks: seq<Block>, jobs: seq<Job>, k: nat)
    requires JobsInRange(jobs, |blocks|) && k < |jobs|
    ensures AfterJobs(s, blocks, jobs[..k + 1]) == AfterJob(s, AfterJobs(s, blocks, jobs[..k]), jobs[k])
    ensures LastReason(jobs[..k + 1]) == if Accepted(jobs[k]) then LastReason(jobs[..k]) else Skipped(jobs[k])
  {
    assert jobs[..k + 1][..k] == jobs[..k];
    hide AfterJob, Skipped;
  }

  /** The lines sent for a chunk are the original ones: no chunk before it touched them. */
  lemma {:induction false} SameLines(s: Settings, blocks: seq<Block>, jobs: seq<Job>, k: nat)
    requires JobsInRange(jobs, |blocks|) && Separate(jobs) && k < |jobs|
    ensures Sub(AfterJobs(s, blocks, jobs[..k]), jobs[k].group) == Sub(blocks, jobs[k].group)
  {
    SeparatePrefix(jobs, k);
    hide AfterJobs, SomeJobProposes;
    forall l: nat | l < |jobs[k].group|
      ensures AfterJobs(s, blocks, jobs[..k])[jobs[k].group[l]] == blocks[jobs[k].group[l]]
    {
      var i := jobs[k].group[l];
      assert i < |blocks|;
      AfterJobsAt(s, blocks, jobs[..k], i);
      forall line
        ensures !SomeJobProposes(jobs[..k], i, line)
      {
        NotProposed(jobs, k, i, line);
      }
    }
  }

  lemma {:induction false} SeparatePrefix(jobs: seq<Job>, k: nat)
    requires Separate(jobs) && k <= |jobs|
    ensures Separate(jobs[..k])
  {
    hide NoDuplicates;
  }

  lemma {:induction false} NotProposed(jobs: seq<Job>, k: nat, i: nat, line: string)
    requires Separate(jobs) && k < |jobs| && i in jobs[k].group
    ensures !SomeJobProposes(jobs[..k], i, line)
  {
    forall l | 0 <= l < k
      ensures !Proposes(jobs[l], i, line)
    {
      ProposesIn(jobs[l], i, line);
    }
  }

  lemma {:induction false} ProposesIn(job: Job, i: nat, line: string)
    ensures Proposes(job, i, line) ==> i in job.group
  {
  }

  /** The inner loop over the lines of one chunk. */
  method CorrectLines(s: Settings, before: seq<Block>, group: seq<nat>, lines: seq<string>)
    returns (corrected: seq<Block>)
    requires |group| == |lines| && InRange(group, |before|)
    ensures corrected == AfterLines(s, before, group, lines, |group|)
  {
    corrected := before;
    for l := 0 to |group|
      invariant |corrected| == |before| && corrected == AfterLines(s, before, group, lines, l)
    {
      var b := corrected[group[l]];
      if lines[l] != b.text {
        if s.similarity(b.text, lines[l]) < s.minSimilarity {
          continue;
        }
        var boosted := RMin(1.0, RMax(b.confidence, 0.90));
        corrected := corrected[group[l] := b.(text := lines[l], confidence := Round4(boosted))];
      }
    }
  }

  method CountChanged(blocks: seq<Block>, after: seq<Block>) returns (count: nat)
    requires |blocks| == |after|
    ensures count == Changed(blocks, after)
  {
    count := 0;
    for i := 0 to |blocks|
      invariant count == Changed(blocks[..i], after[..i])
    {
      assert blocks[..i + 1][..i] == blocks[..i] && after[..i + 1][..i] == after[..i];
      if after[i].text != blocks[i].text {
        count := count + 1;
      }
    }
    assert blocks[..|blocks|] == blocks && after[..|blocks|] == after;
  }

  // ---- What a run guarantees ----------------------------------------------------------------------------

  /**
   Count, boxes, order and layout stay; a block changes only if it was doubtful, and then to a line proposed
   for it that is similar enough.
   */
  lemma {:induction false} RunKeeps(s: Settings, blocks: seq<Block>, chunks: seq<seq<nat>>, i: nat)
    requires Chunked(s, blocks, chunks) && i < |blocks|
    ensures var b, after := blocks[i], AfterJobs(s, blocks, Jobs(s, blocks, chunks))[i];
            || after == b
            || (&& Low(b, s.threshold) && after.text != b.text && s.similarity(b.text, after.text) >= s.minSimilarity
                && SomeJobProposes(Jobs(s, blocks, chunks), i, after.text)
                && after == b.(text := after.text, confidence := Boost(b.confidence)))
  {
    var jobs := Jobs(s, blocks, chunks);
    ChunkedSeparate(s, blocks, chunks);
    AfterJobsAt(s, blocks, jobs, i);
    hide AfterJobs, Separate, Jobs, Low, Boost;
    if line :| SomeJobProposes(jobs, i, line) {
      var k :| 0 <= k < |jobs| && Proposes(jobs[k], i, line);
      assert i in chunks[k];
      InFlat(chunks, k, i);
      LowIndexesFacts(blocks, s.threshold, |blocks|);
    }
  }

  /** A line proposed for a block, different and similar enough. */
  ghost predicate Acceptable(s: Settings, b: Block, line: string) {
    line != b.text && s.similarity(b.text, line) >= s.minSimilarity
  }

  /** Exactly such a line is taken over, with the raised confidence; any other one leaves the block. */
  lemma {:induction false} AcceptableIsApplied(s: Settings, blocks: seq<Block>, chunks: seq<seq<nat>>, i: nat,
                                               line: string)
    requires Chunked(s, blocks, chunks) && i < |blocks| && SomeJobProposes(Jobs(s, blocks, chunks), i, line)
    ensures AfterJobs(s, blocks, Jobs(s, blocks, chunks))[i] ==
              if Acceptable(s, blocks[i], line)
              then blocks[i].(text := line, confidence := Boost(blocks[i].confidence))
              else blocks[i]
  {
    ChunkedSeparate(s, blocks, chunks);
    AfterJobsAt(s, blocks, Jobs(s, blocks, chunks), i);
    hide AfterJobs, Separate, Jobs, SomeJobProposes, Boost, Chunked;
  }

  /** The blocks for which a chunk proposes an acceptable line. */
  ghost predicate Correctable(s: Settings, blocks: seq<Block>, chunks: seq<seq<nat>>, i: int)
    requires ChunksInRange(chunks, |blocks|)
  {
    0 <= i < |blocks| && exists line ::
      SomeJobProposes(Jobs(s, blocks, chunks), i, line) && Acceptable(s, blocks[i], line)
  }

  lemma {:induction false} CorrectableIffChanged(s: Settings, blocks: seq<Block>, chunks: seq<seq<nat>>, i: nat)
    requires Chunked(s, blocks, chunks) && i < |blocks|
    ensures Correctable(s, blocks, chunks, i) <==>
            AfterJobs(s, blocks, Jobs(s, blocks, chunks))[i].text != blocks[i].text
  {
    var jobs := Jobs(s, blocks, chunks);
    ChunkedSeparate(s, blocks, chunks);
    AfterJobsAt(s, blocks, jobs, i);
    hide AfterJobs, Separate, Jobs, SomeJobProposes, Boost, Fixed, Acceptable, Chunked;
    forall line | SomeJobProposes(jobs, i, line)
      ensures AfterJobs(s, blocks, jobs)[i].text != blocks[i].text <==> Acceptable(s, blocks[i], line)
    {
      AcceptableIsApplied(s, blocks, chunks, i, line);
      AcceptableDiffers(s, blocks[i], line);
    }
  }

  lemma {:induction false} AcceptableDiffers(s: Settings, b: Block, line: string)
    ensures Acceptable(s, b, line) ==> line != b.text
  {
  }

  /** The indexes below `n` at which the texts differ. */
  ghost function ChangedAt(blocks: seq<Block>, after: seq<Block>, n: nat): set<int>
    requires n <= |blocks| == |after|
  {
    set i | 0 <= i < n && after[i].text != blocks[i].text
  }

  lemma {:induction false} ChangedCounts(blocks: seq<Block>, after: seq<Block>)
    requires |blocks| == |after|
    ensures Changed(blocks, after) == |ChangedAt(blocks, after, |blocks|)|
  {
    if blocks != [] {
      var n := |blocks| - 1;
      ChangedCounts(blocks[..n], after[..n]);
      ChangedPrefix(blocks, after, n);
      ChangedSnoc(blocks, after, n);
      hide ChangedAt;
    } else {
      assert ChangedAt(blocks, after, 0) == {};
    }
  }

  lemma {:induction false} ChangedPrefix(blocks: seq<Block>, after: seq<Block>, n: nat)
    requires n <= |blocks| == |after|
    ensures ChangedAt(blocks[..n], after[..n], n) == ChangedAt(blocks, after, n)
  {
  }

  lemma {:induction false} ChangedSnoc(blocks: seq<Block>, after: seq<Block>, n: nat)
    requires n < |blocks| == |after|
    ensures |ChangedAt(blocks, after, n + 1)| ==
            |ChangedAt(blocks, after, n)| + if after[n].text != blocks[n].text then 1 else 0
  {
    var before := ChangedAt(blocks, after, n);
    assert ChangedAt(blocks, after, n + 1) == if after[n].text != blocks[n].text then before + {n} else before;
  }

  /** The statistics count the blocks with an acceptable proposal. */
  lemma {:induction false} CorrectedCounts(s: Settings, blocks: seq<Block>, chunks: seq<seq<nat>>, after: seq<Block>,
                                           stats: Stats)
    requires Ran(s, blocks, chunks, after, stats)
    ensures stats.corrected == |set i: int | 0 <= i < |blocks| && Correctable(s, blocks, chunks, i)|
    ensures stats.applied <==> exists i :: Correctable(s, blocks, chunks, i)
  {
    ChangedCounts(blocks, after);
    var all := set i: int | 0 <= i < |blocks| && Correctable(s, blocks, chunks, i);
    forall i | 0 <= i < |blocks|
      ensures i in all <==> i in ChangedAt(blocks, after, |blocks|)
    {
      CorrectableIffChanged(s, blocks, chunks, i);
    }
    hide Changed, Chunked, Jobs, AfterJobs;
    assert all == ChangedAt(blocks, after, |blocks|);
    hide ChangedAt;
    if i :| Correctable(s, blocks, chunks, i) {
      assert i in all;
    }
    if all != {} {
      var i :| i in all;
    }
  }

  /** The reason of the last chunk that could not be used. */
  lemma {:induction false} LastReasonIs(jobs: seq<Job>)
    ensures (forall k :: 0 <= k < |jobs| ==> Accepted(jobs[k])) ==> LastReason(jobs) == ""
    ensures forall k :: 0 <= k < |jobs| && !Accepted(jobs[k]) && (forall l :: k < l < |jobs| ==> Accepted(jobs[l])) ==>
              LastReason(jobs) == Skipped(jobs[k])
  {
    hide Accepted, Skipped;
    if jobs != [] {
      LastReasonIs(jobs[..|jobs| - 1]);
    }
  }

  /** A chunk whose provider failed, or whose line count is off, is untouched. */
  lemma {:induction false} FailedChunkUntouched(s: Settings, blocks: seq<Block>, chunks: seq<seq<nat>>, k: nat, i: nat)
    requires Chunked(s, blocks, chunks) && k < |chunks| && i in chunks[k] && i < |blocks|
    requires !Accepted(Jobs(s, blocks, chunks)[k])
    ensures AfterJobs(s, blocks, Jobs(s, blocks, chunks))[i] == blocks[i]
  {
    var jobs := Jobs(s, blocks, chunks);
    ChunkedSeparate(s, blocks, chunks);
    AfterJobsAt(s, blocks, jobs, i);
    hide AfterJobs, Jobs;
    forall line
      ensures !SomeJobProposes(jobs, i, line)
    {
      forall l | 0 <= l < |jobs|
        ensures !Proposes(jobs[l], i, line)
      {
        ProposesIn(jobs[l], i, line);
        OnlyHere(jobs, k, l, i);
      }
    }
  }

  lemma {:induction false} OnlyHere(jobs: seq<Job>, k: nat, l: nat, i: nat)
    requires Separate(jobs) && k < |jobs| && l < |jobs| && i in jobs[k].group
    ensures l != k ==> i !in jobs[l].group
  {
    hide NoDuplicates;
  }

  // ---- Confidence -----------------------------------------------------------------------------------------

  /** A confidence as the engines give it: in [0, 1], with four decimals. */
  predicate FourDecimals(c: real) {
    0.0 <= c <= 1.0 && (c * 10000.0).Floor as real == c * 10000.0
  }

  lemma {:induction false} Round4Exact(n: int)
    ensures Round4(n as real / 10000.0) == n as real / 10000.0
  {
    assert n as real / 10000.0 * 10000.0 == n as real;
  }

  /**
   The boost of such a confidence is the larger of it and 0.90; the rounding changes nothing. Above 0.90 a confidence
   with more decimals, which no engine gives, would be rounded.
   */
  lemma {:induction false} BoostRaises(c: real)
    requires FourDecimals(c)
    ensures Boost(c) == RMax(c, 0.90) && FourDecimals(Boost(c))
  {
    var n := (c * 10000.0).Floor;
    assert c == n as real / 10000.0;
    if c <= 0.90 {
      Round4Exact(9000);
      assert 0.90 * 10000.0 == 9000.0;
    } else {
      Round4Exact(n);
    }
  }

  /**
   No block of a run loses confidence, whatever the threshold; one that is corrected has at least 0.90; and all keep
   their four decimals.
   */
  lemma {:induction false} RunNeverLowers(s: Settings, blocks: seq<Block>, chunks: seq<seq<nat>>, i: nat)
    requires Chunked(s, blocks, chunks) && i < |blocks| && FourDecimals(blocks[i].confidence)
    ensures var after := AfterJobs(s, blocks, Jobs(s, blocks, chunks))[i];
            && after.confidence >= blocks[i].confidence && FourDecimals(after.confidence)
            && (after != blocks[i] ==> after.confidence >= 0.90)
  {
    RunKeeps(s, blocks, chunks, i);
    BoostRaises(blocks[i].confidence);
    hide Chunked, AfterJobs, Jobs, Boost, Low, FourDecimals;
  }
}
