/**
 * Run: read the source listing, create the destination, hash every entry on
 * a pool of workers and resolve the results in listing order through the
 * reorder buffer. The worker pool is abstracted to the order in which its
 * results arrive: any permutation of 0..n-1.
 */
module MoveDups {
  import opened Wrappers
  import opened Entries
  import opened Worker
  import opened Resolver
  import opened Reorder

  datatype RunError = ReadSourceFailed | CreateDestFailed

  /**
   * listing is what os.ReadDir returns (None for an error), mkdirOk whether
   * os.MkdirAll succeeds, order the arrival order of the workers' results on
   * the results channel, renameOk the outcome of each os.Rename by entry
   * index. `processed` is the sequence of results handed to processResult.
   */
  method Run(listing: Option<seq<Entry>>, mkdirOk: bool, md5: Md5, order: seq<nat>,
             renameOk: nat -> bool, fs: FileSystem)
    returns (err: Option<RunError>, ghost processed: seq<WorkResult>)
    requires listing.Some? && mkdirOk ==> IsPermutation(order, |listing.value|)
    modifies fs
    ensures listing.None? ==> err == Some(ReadSourceFailed) && unchanged(fs)
    ensures listing.Some? && !mkdirOk ==> err == Some(CreateDestFailed) && unchanged(fs)
    ensures listing.Some? && mkdirOk ==>
      && err == None
      && |processed| == |listing.value|
      && (forall i :: 0 <= i < |processed| ==> processed[i].index == i)
      && processed == Results(listing.value, md5)
      && var final := ProcessAll(State({}, old(fs.src), old(fs.dest)), processed, renameOk);
         fs.src == final.src && fs.dest == final.dest
  {
    processed := [];
    if listing.None? {
      return Some(ReadSourceFailed), processed;
    }
    var entries := listing.value;
    if !mkdirOk {
      return Some(CreateDestFailed), processed;
    }
    var ledger := new Ledger();
    // the worker pool: one result per job, delivered in the order `order`
    var results := Results(entries, md5);
    processed := ResolveInOrder(results, order, renameOk, ledger, fs);
    err := None;
  }

  /**
   * The loop of Run from "Process results in order": results arrive as
   * results[order[0]], results[order[1]], ...; each goes into the reorder
   * buffer, and every contiguous run is drained into processResult.
   */
  method ResolveInOrder(results: seq<WorkResult>, order: seq<nat>, renameOk: nat -> bool,
                        ledger: Ledger, fs: FileSystem)
    returns (ghost processed: seq<WorkResult>)
    requires forall i :: 0 <= i < |results| ==> results[i].index == i
    requires IsPermutation(order, |results|)
    modifies ledger, fs
    ensures processed == results
    ensures StateOf(ledger, fs) == ProcessAll(old(StateOf(ledger, fs)), processed, renameOk)
  {
    ghost var s0 := StateOf(ledger, fs);
    var buf := new ReorderBuffer();
    processed := [];
    for k := 0 to |order|
      invariant buf.Valid()
      invariant Arrived(order, k, buf.nextIndex, buf.resultBuffer, results)
      invariant processed == results[..buf.nextIndex]
      invariant StateOf(ledger, fs) == ProcessAll(s0, processed, renameOk)
    {
      var res := results[order[k]];
      ghost var a, buffer := buf.nextIndex, buf.resultBuffer;
      var delivered := buf.Insert(res, ledger, fs, renameOk);
      ArrivalStep(order, results, k, a, buffer, delivered);
      ProcessAllAppend(s0, processed, delivered, renameOk);
      processed := processed + delivered;
    }
    ArrivalsDone(order, results, buf.nextIndex, buf.resultBuffer);
    assert processed == results;
  }
}
