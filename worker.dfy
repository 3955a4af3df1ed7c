/**
 * The per-job classification done by `worker`: a job (an entry and its
 * listing index) becomes a result with the same index and entry, and either
 * `skip` set (a directory), `err` set (Info or hashing failed), or the file
 * key in `hash`. The channel loop around it is concurrency and is not part of
 * this module.
 */
module Worker {
  import opened Wrappers
  import opened Entries
  import opened FileKey

  datatype Job = Job(index: nat, entry: Entry)

  datatype WorkError = InfoFailed | HashFailed(cause: HashError)

  /** Go's `result` struct; `hash` is "" unless the entry was hashed. */
  datatype WorkResult = WorkResult(index: nat, entry: Entry, hash: string, err: Option<WorkError>, skip: bool)

  /** A result that carries a key: neither skipped nor failed. */
  predicate Hashed(r: WorkResult) {
    !r.skip && r.err.None?
  }

  function Work(j: Job, md5: Md5): (r: WorkResult)
    ensures r.index == j.index && r.entry == j.entry
    ensures r.skip <==> j.entry.isDir
    ensures r.skip ==> r.err.None? && r.hash == ""
    ensures r.err == Some(InfoFailed) <==> !j.entry.isDir && !j.entry.infoOk
    ensures r.err.Some? <==> !j.entry.isDir && (!j.entry.infoOk || !j.entry.contents.Readable?)
    ensures Hashed(r) ==> r.hash != "" && r.hash == CalculateHash(j.entry.contents, j.entry.size, md5).value
    ensures Hashed(r) ==> ParseKey(r.hash) == Some((|j.entry.contents.data|, md5(j.entry.contents.data)))
  {
    var res := WorkResult(j.index, j.entry, "", None, false);
    if j.entry.isDir then res.(skip := true)
    else if !j.entry.infoOk then res.(err := Some(InfoFailed))
    else match CalculateHash(j.entry.contents, j.entry.size, md5)
      case Err(e) => res.(err := Some(HashFailed(e)))
      case Ok(h) => res.(hash := h)
  }

  /** The results of every job, in listing order (job i carries entries[i]). */
  function Results(entries: seq<Entry>, md5: Md5): (rs: seq<WorkResult>)
    ensures |rs| == |entries|
    ensures forall i :: 0 <= i < |rs| ==> rs[i].index == i && rs[i].entry == entries[i]
  {
    seq(|entries|, i requires 0 <= i < |entries| => Work(Job(i, entries[i]), md5))
  }

  /**
   * Two hashed results carry the same key exactly when the same number of
   * bytes was read from both and their digests agree.
   */
  lemma SameKeyIffSameCountAndDigest(r1: WorkResult, r2: WorkResult, md5: Md5)
    requires r1 == Work(Job(r1.index, r1.entry), md5) && Hashed(r1)
    requires r2 == Work(Job(r2.index, r2.entry), md5) && Hashed(r2)
    ensures r1.hash == r2.hash <==>
      |r1.entry.contents.data| == |r2.entry.contents.data| &&
      md5(r1.entry.contents.data) == md5(r2.entry.contents.data)
  {
    var d1, d2 := r1.entry.contents.data, r2.entry.contents.data;
    KeyInjective(|d1|, md5(d1), |d2|, md5(d2));
  }
}
