/**
 * The batched dispatch of run.py: `get_completion` with its retry policy,
 * `process_command`, and the loop of `get_results` that gathers benchmark
 * items into batches of fifteen, runs each batch through a thread pool and
 * appends the batch's records to the output file.
 *
 * The completion service is a parameter: for a request and an attempt number
 * it yields the response text, or None when that attempt raised.  The thread
 * pool is a map whose results are gathered in submission order, so it is
 * modelled as a sequential map (`RunBatch`).
 */
module Dispatch {

  import opened Wrappers
  import opened Extraction
  import opened Batching

  /** One benchmark line, reduced to the two fields `get_results` reads. */
  datatype WorkItem = WorkItem(taskId: string, prompt: string)

  /** One line of the output file. */
  datatype Record = Record(taskId: string, completion: string)

  /** A chat-completion request: the model, the system message and the user message. */
  datatype Request = Request(model: string, system: string, user: string)

  /** The service: the response content of attempt k for a request, or None
      when that attempt raised. */
  type Service = (Request, nat) -> Option<string>

  const SystemInstruction: string :=
    "You are an intelligent programmer. You must complete the python function given to you by the user. And you must follow the format they present when giving your answer!"

  /** `stop_after_attempt(6)` */
  const MaxAttempts: nat := 6

  // ---- get_completion and process_command ----------------------------------

  /** The retry decorator from attempt k on: the first attempt among
      k, ..., MaxAttempts whose call returns, or None when all of them raise. */
  function RetryFrom(service: Service, req: Request, k: nat): (r: Option<string>)
    requires 1 <= k
    ensures r.Some? <==> exists j :: k <= j <= MaxAttempts && service(req, j).Some?
    ensures r.Some? ==>
      exists j :: k <= j <= MaxAttempts && service(req, j) == r &&
        forall i :: k <= i < j ==> service(req, i).None?
    decreases MaxAttempts + 1 - k
  {
    if k > MaxAttempts then None
    else if service(req, k).Some? then service(req, k)
    else RetryFrom(service, req, k + 1)
  }

  function Ask(model: string, prompt: string): Request {
    Request(model, SystemInstruction, prompt)
  }

  /** `get_completion`: the extracted completion of the first response, or
      None when every attempt failed. */
  function GetCompletion(service: Service, model: string, prompt: string): (r: Option<string>)
    ensures r.Some? <==> exists k :: 1 <= k <= MaxAttempts && service(Ask(model, prompt), k).Some?
    ensures r.Some? ==>
      exists k :: 1 <= k <= MaxAttempts && service(Ask(model, prompt), k).Some? &&
        r.value == Extract(service(Ask(model, prompt), k).value) &&
        forall i :: 1 <= i < k ==> service(Ask(model, prompt), i).None?
  {
    match RetryFrom(service, Ask(model, prompt), 1)
    case Some(response) => Some(Extract(response))
    case None => None
  }

  /** `process_command`: the output record of one item. */
  function ProcessCommand(service: Service, model: string, item: WorkItem): (r: Option<Record>)
    ensures r.Some? <==> GetCompletion(service, model, item.prompt).Some?
    ensures r.Some? ==> r.value.taskId == item.taskId
    ensures r.Some? ==> Some(r.value.completion) == GetCompletion(service, model, item.prompt)
  {
    match GetCompletion(service, model, item.prompt)
    case Some(completion) => Some(Record(item.taskId, completion))
    case None => None
  }

  /** `process_command` bound to one service and model, as handed to the pool. */
  function Processor(service: Service, model: string): WorkItem -> Option<Record> {
    item => ProcessCommand(service, model, item)
  }

  // ---- one flush -------------------------------------------------------------

  /** The thread pool of one flush: every item of the batch is processed and
      the results are gathered in submission order; a call that failed raises
      out of the gathering, so the batch then yields nothing. */
  function RunBatch(process: WorkItem -> Option<Record>, batch: seq<WorkItem>): (r: Option<seq<Record>>)
    ensures r.Some? <==> forall i :: 0 <= i < |batch| ==> process(batch[i]).Some?
    ensures r.Some? ==> |r.value| == |batch|
    ensures r.Some? ==>
      forall i :: 0 <= i < |batch| ==> process(batch[i]) == Some(r.value[i])
    decreases |batch|
  {
    if batch == [] then Some([])
    else
      var init := RunBatch(process, batch[..|batch| - 1]);
      var last := process(batch[|batch| - 1]);
      if init.Some? && last.Some? then Some(init.value + [last.value]) else None
  }

  // ---- the run as a whole ----------------------------------------------------

  /** What a run leaves behind: the records written, the number of batches
      flushed, and whether it got to the end without an exception. */
  datatype Outcome = Outcome(written: seq<Record>, flushed: nat, completed: bool)

  /** The batches processed in order; the first batch with a failed call
      aborts the run before anything of it is written. */
  function RunBatches(process: WorkItem -> Option<Record>, batches: seq<seq<WorkItem>>): (o: Outcome)
    ensures o.flushed <= |batches|
    ensures o.completed <==> o.flushed == |batches|
    decreases |batches|
  {
    if batches == [] then Outcome([], 0, true)
    else
      var prior := RunBatches(process, batches[..|batches| - 1]);
      if !prior.completed then prior
      else
        match RunBatch(process, batches[|batches| - 1])
        case Some(rs) => Outcome(prior.written + rs, prior.flushed + 1, true)
        case None => Outcome(prior.written, prior.flushed, false)
  }

  /** The output file `results-<model>.jsonl`, one record per line. */
  class ResultsFile {

    var lines: seq<Record>

    /** `open(out_file, 'w')`: the file is emptied. */
    method Truncate()
      modifies this
      ensures lines == []
    {
      lines := [];
    }

    /** `open(out_file, 'a')` and one `write` per record, in order. */
    method AppendAll(records: seq<Record>)
      modifies this
      ensures lines == old(lines) + records
    {
      for i := 0 to |records|
        invariant lines == old(lines) + records[..i]
      {
        lines := lines + [records[i]];
      }
    }
  }

  /** One flush: run the batch through the pool, then append its records. */
  method Flush(out: ResultsFile, process: WorkItem -> Option<Record>, batch: seq<WorkItem>) returns (ok: bool)
    modifies out
    ensures ok == RunBatch(process, batch).Some?
    ensures out.lines == if ok then old(out.lines) + RunBatch(process, batch).value else old(out.lines)
  {
    var results := RunBatch(process, batch);
    if results.None? {
      return false;
    }
    out.AppendAll(results.value);
    ok := true;
  }

  /** `get_results`: truncate the output file, then walk the items, adding
      each (task_id, prompt) pair to the batch and flushing the batch when it
      reaches BatchSize items; flush the leftovers after the loop.  A failed
      call raises out of the flush: the method then returns with `ok` false.
      `progress` is the progress bar's count, `flushed` the batches whose
      records were appended, in order. */
  method GetResults(process: WorkItem -> Option<Record>, items: seq<WorkItem>, out: ResultsFile)
    returns (ok: bool, progress: nat, ghost flushed: seq<seq<WorkItem>>)
    modifies out
    ensures ok == RunBatches(process, Chunks(items)).completed
    ensures out.lines == RunBatches(process, Chunks(items)).written
    ensures progress == |out.lines|
    ensures ok ==> progress == |items|
    ensures flushed == Chunks(items)[..RunBatches(process, Chunks(items)).flushed]
  {
    out.Truncate();
    var batch: seq<WorkItem> := [];
    progress := 0;
    flushed := [];
    for i := 0 to |items|
      invariant Pending(process, items, i, batch, flushed, out.lines, progress)
    {
      var done;
      done, batch, progress, flushed := AddItem(out, process, batch, progress, items[i], items, i, flushed);
      if !done {
        ok := false;
        return;
      }
    }
    ok, progress, flushed := FlushRemainder(out, process, batch, progress, items, flushed);
    RunOutcome(process, items);
  }

  /** The state of `get_results` after its first i items: `batch` holds the
      items since the last flush, every batch before them has been flushed
      (`flushed`), and the file and the progress bar account for exactly the
      records of those batches. */
  ghost predicate Pending(process: WorkItem -> Option<Record>, items: seq<WorkItem>, i: nat,
                          batch: seq<WorkItem>, flushed: seq<seq<WorkItem>>, written: seq<Record>, progress: nat)
  {
    i <= |items| && |batch| < BatchSize && |flushed| * BatchSize + |batch| == i &&
    batch == items[i - |batch|..i] &&
    flushed == Chunks(items[..i - |batch|]) &&
    RunBatches(process, flushed) == Outcome(written, |flushed|, true) &&
    progress == |written|
  }

  /** One turn of the loop of `get_results` (run.py:74-89): the item joins
      the batch, and a batch that reaches BatchSize items is flushed.  If the
      flush fails, the run ends there with the outcome `RunBatches` gives. */
  method AddItem(out: ResultsFile, process: WorkItem -> Option<Record>, batch: seq<WorkItem>, progress: nat,
                 item: WorkItem, ghost items: seq<WorkItem>, ghost i: nat, ghost flushed: seq<seq<WorkItem>>)
    returns (ok: bool, batchAfter: seq<WorkItem>, progressAfter: nat, ghost flushedAfter: seq<seq<WorkItem>>)
    requires i < |items| && item == items[i]
    requires Pending(process, items, i, batch, flushed, out.lines, progress)
    modifies out
    ensures ok ==> Pending(process, items, i + 1, batchAfter, flushedAfter, out.lines, progressAfter)
    ensures !ok ==> !RunBatches(process, Chunks(items)).completed
    ensures !ok ==> out.lines == RunBatches(process, Chunks(items)).written
    ensures !ok ==> progressAfter == |out.lines|
    ensures !ok ==> flushedAfter == Chunks(items)[..RunBatches(process, Chunks(items)).flushed]
  {
    ghost var cut := i - |batch|;
    assert items[cut..i + 1] == items[cut..i] + [item];
    batchAfter := batch + [item];
    progressAfter := progress;
    flushedAfter := flushed;
    ok := true;
    if |batchAfter| == BatchSize {
      ok := FlushBatch(out, process, batchAfter, items, i + 1, flushed);
      if !ok {
        return;
      }
      flushedAfter := flushed + [batchAfter];
      batchAfter := [];
      progressAfter := progress + BatchSize;
    } else {
      assert i + 1 - |batchAfter| == cut;
    }
  }

  /** The flush after the loop of `get_results`, of the items left over
      when fewer than BatchSize remain; it ends the run. */
  method FlushRemainder(out: ResultsFile, process: WorkItem -> Option<Record>, batch: seq<WorkItem>,
                        progress: nat, ghost items: seq<WorkItem>, ghost flushed: seq<seq<WorkItem>>)
    returns (ok: bool, progressAfter: nat, ghost flushedAfter: seq<seq<WorkItem>>)
    requires Pending(process, items, |items|, batch, flushed, out.lines, progress)
    modifies out
    ensures ok == RunBatches(process, Chunks(items)).completed
    ensures out.lines == RunBatches(process, Chunks(items)).written
    ensures progressAfter == |out.lines|
    ensures flushedAfter == Chunks(items)[..RunBatches(process, Chunks(items)).flushed]
  {
    assert items[..|items|] == items && items[|items| - |batch|..|items|] == items[|items| - |batch|..];
    flushedAfter := flushed;
    progressAfter := progress;
    if |batch| > 0 {
      ok := FlushBatch(out, process, batch, items, |items|, flushed);
      if !ok {
        return;
      }
      flushedAfter := flushed + [batch];
      progressAfter := progress + |batch|;
    }
    assert flushedAfter == Chunks(items);
    assert Chunks(items)[..|flushedAfter|] == flushedAfter;
    ok := true;
  }

  /** The flush of `get_results` (run.py:80-89 inside the loop, 93-101 after
      it), with what it means for the run: the batch is the next batch of
      `Chunks`, and either its records extend the run or the run is over. */
  method FlushBatch(out: ResultsFile, process: WorkItem -> Option<Record>, batch: seq<WorkItem>,
                    ghost items: seq<WorkItem>, ghost j: nat, ghost flushed: seq<seq<WorkItem>>)
    returns (ok: bool)
    requires j <= |items| && 0 < |batch| <= BatchSize
    requires |batch| == BatchSize || j == |items|
    requires |flushed| * BatchSize + |batch| == j
    requires batch == items[j - |batch|..j]
    requires flushed == Chunks(items[..j - |batch|])
    requires RunBatches(process, flushed) == Outcome(out.lines, |flushed|, true)
    modifies out
    ensures Chunks(items[..j]) == flushed + [batch]
    ensures ok ==> |out.lines| == |old(out.lines)| + |batch|
    ensures ok ==> RunBatches(process, flushed + [batch]) == Outcome(out.lines, |flushed| + 1, true)
    ensures ok && |batch| == BatchSize ==> Pending(process, items, j, [], flushed + [batch], out.lines, |out.lines|)
    ensures !ok ==> out.lines == old(out.lines)
    ensures !ok ==> !RunBatches(process, Chunks(items)).completed
    ensures !ok ==> out.lines == RunBatches(process, Chunks(items)).written
    ensures !ok ==> flushed == Chunks(items)[..RunBatches(process, Chunks(items)).flushed]
  {
    NextBatch(items, j, flushed, batch);
    ok := Flush(out, process, batch);
    if ok {
      Flushed(process, flushed, batch, old(out.lines), out.lines);
      if |batch| == BatchSize {
        FullBatchFlushed(process, items, j, flushed, batch, out.lines);
      }
    } else {
      if j < |items| {
        MultipleOfBatchSize(|flushed| + 1);
      }
      Aborted(process, items, j, flushed, batch, out.lines);
    }
  }

  /** The batch just filled (or left over) is the next batch of `Chunks`. */
  lemma NextBatch(items: seq<WorkItem>, j: nat, flushed: seq<seq<WorkItem>>, batch: seq<WorkItem>)
    requires j <= |items| && 0 < |batch| <= BatchSize
    requires |flushed| * BatchSize + |batch| == j
    requires batch == items[j - |batch|..j]
    requires flushed == Chunks(items[..j - |batch|])
    ensures Chunks(items[..j]) == flushed + [batch]
  {
    assert items[..j] == items[..j - |batch|] + batch;
    ChunksSnoc(items[..j - |batch|], batch);
  }

  /** A flushed batch extends the run by its records. */
  lemma Flushed(process: WorkItem -> Option<Record>, flushed: seq<seq<WorkItem>>, batch: seq<WorkItem>,
                before: seq<Record>, after: seq<Record>)
    requires RunBatches(process, flushed) == Outcome(before, |flushed|, true)
    requires RunBatch(process, batch).Some? && after == before + RunBatch(process, batch).value
    ensures RunBatches(process, flushed + [batch]) == Outcome(after, |flushed| + 1, true)
  {
    assert (flushed + [batch])[..|flushed|] == flushed;
  }

  /** After a full batch is flushed the loop starts over with an empty batch. */
  lemma FullBatchFlushed(process: WorkItem -> Option<Record>, items: seq<WorkItem>, j: nat,
                         flushed: seq<seq<WorkItem>>, batch: seq<WorkItem>, written: seq<Record>)
    requires j <= |items| && |batch| == BatchSize && |flushed| * BatchSize + |batch| == j
    requires Chunks(items[..j]) == flushed + [batch]
    requires RunBatches(process, flushed + [batch]) == Outcome(written, |flushed| + 1, true)
    ensures Pending(process, items, j, [], flushed + [batch], written, |written|)
  {
    assert items[j..j] == [];
  }

  /** After a batch fails, the outcome of the whole run is already fixed:
      the batches after it are never run. */
  lemma Aborted(process: WorkItem -> Option<Record>, items: seq<WorkItem>, j: nat,
                flushed: seq<seq<WorkItem>>, batch: seq<WorkItem>, written: seq<Record>)
    requires j <= |items|
    requires j % BatchSize == 0 || j == |items|
    requires Chunks(items[..j]) == flushed + [batch]
    requires RunBatches(process, flushed) == Outcome(written, |flushed|, true)
    requires RunBatch(process, batch).None?
    ensures !RunBatches(process, Chunks(items)).completed
    ensures written == RunBatches(process, Chunks(items)).written
    ensures flushed == Chunks(items)[..RunBatches(process, Chunks(items)).flushed]
  {
    ChunksSplit(items, j);
    FailedBatch(process, flushed, batch, Chunks(items[j..]), written);
  }

  /** The batch after the flushed ones fails: the run stops there, whatever
      batches follow. */
  lemma FailedBatch(process: WorkItem -> Option<Record>, flushed: seq<seq<WorkItem>>, batch: seq<WorkItem>,
                    rest: seq<seq<WorkItem>>, written: seq<Record>)
    requires RunBatches(process, flushed) == Outcome(written, |flushed|, true)
    requires RunBatch(process, batch).None?
    ensures var all := flushed + [batch] + rest;
      !RunBatches(process, all).completed &&
      RunBatches(process, all).written == written &&
      all[..RunBatches(process, all).flushed] == flushed
  {
    var cs := flushed + [batch];
    assert cs[..|flushed|] == flushed;
    assert RunBatches(process, cs) == Outcome(written, |flushed|, false);
    RunBatchesStops(process, cs, rest);
    assert (cs + rest)[..|flushed|] == flushed;
  }

  /** Once a batch has failed, later batches change nothing. */
  lemma {:induction false} RunBatchesStops(process: WorkItem -> Option<Record>, cs: seq<seq<WorkItem>>, ds: seq<seq<WorkItem>>)
    requires !RunBatches(process, cs).completed
    ensures RunBatches(process, cs + ds) == RunBatches(process, cs)
    decreases |ds|
  {
    if ds == [] {
      assert cs + ds == cs;
    } else {
      var init := ds[..|ds| - 1];
      assert (cs + ds)[..|cs + ds| - 1] == cs + init;
      RunBatchesStops(process, cs, init);
    }
  }

  // ---- properties of the run ------------------------------------------------

  /** The retry decorator looks at no attempt after the sixth: two services
      that agree on attempts 1 to 6 give the same result. */
  lemma {:induction false} RetryUsesSixAttempts(s1: Service, s2: Service, req: Request, k: nat)
    requires 1 <= k
    requires forall j :: 1 <= j <= MaxAttempts ==> s1(req, j) == s2(req, j)
    ensures RetryFrom(s1, req, k) == RetryFrom(s2, req, k)
    decreases MaxAttempts + 1 - k
  {
    if k <= MaxAttempts {
      RetryUsesSixAttempts(s1, s2, req, k + 1);
    }
  }

  /** The pool's gathering is all-or-nothing over a concatenation too. */
  lemma {:induction false} RunBatchAppend(process: WorkItem -> Option<Record>, a: seq<WorkItem>, b: seq<WorkItem>)
    ensures var ra, rb := RunBatch(process, a), RunBatch(process, b);
      RunBatch(process, a + b) == if ra.Some? && rb.Some? then Some(ra.value + rb.value) else None
    decreases |b|
  {
    if b == [] {
      assert a + b == a;
      assert RunBatch(process, b) == Some([]);
      if RunBatch(process, a).Some? {
        assert RunBatch(process, a).value + [] == RunBatch(process, a).value;
      }
    } else {
      var init := b[..|b| - 1];
      assert (a + b)[..|a + b| - 1] == a + init;
      assert (a + b)[|a + b| - 1] == b[|b| - 1];
      RunBatchAppend(process, a, init);
      var ra, ri, x := RunBatch(process, a), RunBatch(process, init), process(b[|b| - 1]);
      if ra.Some? && ri.Some? && x.Some? {
        assert ra.value + ri.value + [x.value] == ra.value + (ri.value + [x.value]);
      }
    }
  }

  /** What a run over given batches leaves: the records of the first
      `flushed` batches, all of them if it completed, and otherwise the batch
      right after them is the one with a failed call. */
  lemma {:induction false} RunBatchesSpec(process: WorkItem -> Option<Record>, cs: seq<seq<WorkItem>>)
    ensures var o := RunBatches(process, cs);
      o.flushed <= |cs| &&
      RunBatch(process, Flatten(cs[..o.flushed])) == Some(o.written) &&
      (!o.completed ==> o.flushed < |cs| && RunBatch(process, cs[o.flushed]).None?)
    decreases |cs|
  {
    if cs != [] {
      var init := cs[..|cs| - 1];
      var last := cs[|cs| - 1];
      RunBatchesSpec(process, init);
      var prior := RunBatches(process, init);
      assert cs[..prior.flushed] == init[..prior.flushed];
      if prior.completed {
        assert init[..prior.flushed] == init;
        assert cs[..prior.flushed + 1] == init + [last];
        FlattenAppend(init, [last]);
        assert Flatten([last]) == Flatten([last][..0]) + last;
        RunBatchAppend(process, Flatten(init), last);
      }
    }
  }

  /** The run end to end: the output holds the records of the first
      |written| items, in input order; the run completes exactly when every
      call succeeds, and then every item has its record; otherwise it stopped
      at a batch boundary, before a batch holding a failed call. */
  lemma RunOutcome(process: WorkItem -> Option<Record>, items: seq<WorkItem>)
    ensures var o := RunBatches(process, Chunks(items));
      |o.written| <= |items| &&
      RunBatch(process, items[..|o.written|]) == Some(o.written) &&
      (o.completed <==> forall i :: 0 <= i < |items| ==> process(items[i]).Some?) &&
      (o.completed <==> |o.written| == |items|) &&
      (!o.completed ==>
        |o.written| == BatchSize * o.flushed &&
        exists i :: |o.written| <= i < ChunkEnd(o.flushed, |items|) &&
          process(items[i]).None?)
  {
    var o := RunBatches(process, Chunks(items));
    if o.completed {
      RunCompleted(process, items);
      assert items[..|items|] == items;
    } else {
      RunStopped(process, items);
    }
  }

  lemma RunCompleted(process: WorkItem -> Option<Record>, items: seq<WorkItem>)
    requires RunBatches(process, Chunks(items)).completed
    ensures RunBatch(process, items) == Some(RunBatches(process, Chunks(items)).written)
  {
    var cs := Chunks(items);
    RunBatchesSpec(process, cs);
    assert cs[..|cs|] == cs;
    ChunksFlatten(items);
  }

  lemma RunStopped(process: WorkItem -> Option<Record>, items: seq<WorkItem>)
    requires !RunBatches(process, Chunks(items)).completed
    ensures var o := RunBatches(process, Chunks(items));
      |o.written| == BatchSize * o.flushed < |items| &&
      RunBatch(process, items[..|o.written|]) == Some(o.written) &&
      exists i :: |o.written| <= i < ChunkEnd(o.flushed, |items|) && process(items[i]).None?
  {
    StoppedAt(process, items);
    var o := RunBatches(process, Chunks(items));
    FailedCall(process, items, |o.written|, ChunkEnd(o.flushed, |items|));
  }

  /** A run that stops has written the batches before the failing one, and
      the failing one is the next slice of BatchSize (or fewer) items. */
  lemma StoppedAt(process: WorkItem -> Option<Record>, items: seq<WorkItem>)
    requires !RunBatches(process, Chunks(items)).completed
    ensures var o := RunBatches(process, Chunks(items));
      |o.written| == BatchSize * o.flushed < |items| &&
      RunBatch(process, items[..|o.written|]) == Some(o.written) &&
      |o.written| <= ChunkEnd(o.flushed, |items|) <= |items| &&
      RunBatch(process, items[|o.written|..ChunkEnd(o.flushed, |items|)]).None?
  {
    var cs := Chunks(items);
    RunBatchesSpec(process, cs);
    FlushedPrefix(items, RunBatches(process, cs).flushed);
  }

  /** A failed batch holds a failed call. */
  lemma FailedCall(process: WorkItem -> Option<Record>, items: seq<WorkItem>, p: nat, e: nat)
    requires p <= e <= |items| && RunBatch(process, items[p..e]).None?
    ensures exists i :: p <= i < e && process(items[i]).None?
  {
    var bad := items[p..e];
    var k :| 0 <= k < |bad| && process(bad[k]).None?;
    assert bad[k] == items[p + k];
  }

  /** When every call succeeds, the output file ends up with exactly one
      record per item, in input order, each under its item's task id and
      holding that item's completion. */
  lemma AllSucceed(service: Service, model: string, items: seq<WorkItem>)
    requires forall i :: 0 <= i < |items| ==> GetCompletion(service, model, items[i].prompt).Some?
    ensures var o := RunBatches(Processor(service, model), Chunks(items));
      o.completed && |o.written| == |items| &&
      forall i :: 0 <= i < |items| ==>
        o.written[i].taskId == items[i].taskId &&
        Some(o.written[i].completion) == GetCompletion(service, model, items[i].prompt)
  {
    var process := Processor(service, model);
    forall i | 0 <= i < |items| ensures process(items[i]).Some? {
      assert process(items[i]) == ProcessCommand(service, model, items[i]);
    }
    RunOutcome(process, items);
    assert items[..|items|] == items;
    var o := RunBatches(process, Chunks(items));
    forall i | 0 <= i < |items|
      ensures o.written[i].taskId == items[i].taskId &&
        Some(o.written[i].completion) == GetCompletion(service, model, items[i].prompt)
    {
      assert process(items[i]) == ProcessCommand(service, model, items[i]);
    }
  }
}
