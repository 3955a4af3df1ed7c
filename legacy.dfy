/**
 * The single-threaded predecessor in main.go: list ".", try to create "dups",
 * then call fileAction on every entry in listing order with one shared
 * seenHashes map. Unlike processResult, fileAction writes the key into the map
 * after every hashed file, duplicate or not, and it never calls Info, so the
 * "info failed" case of the worker does not exist here.
 */
module Legacy {
  import opened Wrappers
  import opened Entries
  import opened FileKey
  import opened Worker
  import opened Resolver

  /** The key fileAction computes for e, or None when it returns early. */
  function LegacyKey(e: Entry, md5: Md5): (k: Option<string>)
    ensures k.None? <==> e.isDir || !e.contents.Readable?
    ensures k.Some? ==> ParseKey(k.value) == Some((|e.contents.data|, md5(e.contents.data)))
  {
    if e.isDir then None
    else match CalculateHash(e.contents, e.size, md5)
      case Ok(h) => Some(h)
      case Err(_) => None
  }

  /** One call of fileAction on the state; renameOk is what os.Rename reports. */
  function Action(s: State, e: Entry, md5: Md5, renameOk: bool): (t: State)
    ensures LegacyKey(e, md5).None? ==> t == s
    ensures LegacyKey(e, md5).Some? ==> t.seenHashes == s.seenHashes + {LegacyKey(e, md5).value}
    ensures LegacyKey(e, md5).Some? && LegacyKey(e, md5).value in s.seenHashes && renameOk ==>
      t.src == s.src - {e.name} && t.dest == s.dest + {e.name}
    ensures !(LegacyKey(e, md5).Some? && LegacyKey(e, md5).value in s.seenHashes && renameOk) ==>
      t.src == s.src && t.dest == s.dest
  {
    match LegacyKey(e, md5)
    case None => s
    case Some(h) =>
      var moved := if h in s.seenHashes && renameOk
        then s.(src := s.src - {e.name}, dest := s.dest + {e.name})
        else s;
      moved.(seenHashes := moved.seenHashes + {h})
  }

  /** The loop of main: fileAction on every entry in order; renameOk by index. */
  function LegacyAll(s: State, entries: seq<Entry>, md5: Md5, renameOk: nat -> bool): State {
    if entries == [] then s
    else
      var n := |entries| - 1;
      Action(LegacyAll(s, entries[..n], md5, renameOk), entries[n], md5, renameOk(n))
  }

  // ---------------------------------------------------------------------
  // Lemmas

  /**
   * The unconditional re-insert of the key is harmless: on a duplicate the
   * ledger is unchanged, and in every case the key is in the ledger afterwards.
   */
  lemma ReinsertHarmless(s: State, e: Entry, md5: Md5, renameOk: bool)
    requires LegacyKey(e, md5).Some?
    ensures LegacyKey(e, md5).value in Action(s, e, md5, renameOk).seenHashes
    ensures LegacyKey(e, md5).value in s.seenHashes ==> Action(s, e, md5, renameOk).seenHashes == s.seenHashes
  {
  }

  /** For an entry whose Info succeeds, fileAction does what processResult does with the worker's result. */
  lemma ActionAgrees(s: State, i: nat, e: Entry, md5: Md5, renameOk: bool)
    requires e.infoOk
    ensures Action(s, e, md5, renameOk) == Process(s, Work(Job(i, e), md5), renameOk)
  {
    var r := Work(Job(i, e), md5);
    if LegacyKey(e, md5).Some? {
      var h := LegacyKey(e, md5).value;
      assert Hashed(r) && r.hash == h;
    }
  }

  /** The listed size is only reported: it never changes what fileAction does. */
  lemma SizeIgnored(s: State, e: Entry, size: int, md5: Md5, renameOk: bool)
    ensures Action(s, e.(size := size), md5, renameOk) == Action(s, e, md5, renameOk)
  {
    var e' := e.(size := size);
    assert e'.contents == e.contents && e'.isDir == e.isDir;
    if !e.isDir {
      match e.contents
      case Readable(data) =>
        assert CalculateHash(e'.contents, e'.size, md5).value == CalculateHash(e.contents, e.size, md5).value;
      case _ =>
    }
  }

  lemma ResultsPrefix(entries: seq<Entry>, md5: Md5, n: nat)
    requires n <= |entries|
    ensures Results(entries[..n], md5) == Results(entries, md5)[..n]
  {
  }

  /**
   * When every entry's Info succeeds, the legacy loop and the reorder-buffer
   * pipeline leave the same ledger and the same directories: Run is
   * behaviour-preserving with respect to main.go.
   */
  lemma {:induction false} LegacyAgrees(s: State, entries: seq<Entry>, md5: Md5, renameOk: nat -> bool)
    requires forall i :: 0 <= i < |entries| ==> entries[i].infoOk
    ensures LegacyAll(s, entries, md5, renameOk) == ProcessAll(s, Results(entries, md5), renameOk)
  {
    if entries != [] {
      var n := |entries| - 1;
      var rs := Results(entries, md5);
      LegacyAgrees(s, entries[..n], md5, renameOk);
      ResultsPrefix(entries, md5, n);
      assert rs[..|rs| - 1] == Results(entries[..n], md5);
      ActionAgrees(LegacyAll(s, entries[..n], md5, renameOk), n, entries[n], md5, renameOk(n));
      assert rs[n] == Work(Job(n, entries[n]), md5);
    }
  }

  /**
   * Per entry, the legacy loop moves (key already recorded) or keeps (key new)
   * exactly when processResult decides Move or Keep for the same position of
   * the listing.
   */
  lemma LegacyDecisionAgrees(s: State, entries: seq<Entry>, md5: Md5, renameOk: nat -> bool, i: nat)
    requires forall j :: 0 <= j < |entries| ==> entries[j].infoOk
    requires i < |entries|
    ensures var key, seen := LegacyKey(entries[i], md5), LegacyAll(s, entries[..i], md5, renameOk).seenHashes;
      && (key.Some? && key.value in seen <==> DecisionAt(s.seenHashes, Results(entries, md5), i) == Move)
      && (key.Some? && key.value !in seen <==> DecisionAt(s.seenHashes, Results(entries, md5), i) == Keep)
  {
    var rs := Results(entries, md5);
    var p := entries[..i];
    LegacyAgrees(s, p, md5, renameOk);
    ProcessAllLedger(s, Results(p, md5), renameOk);
    ResultsPrefix(entries, md5, i);
    var r := Work(Job(i, entries[i]), md5);
    assert rs[i] == r;
    if LegacyKey(entries[i], md5).Some? {
      assert Hashed(r) && r.hash == LegacyKey(entries[i], md5).value;
    }
  }

  /**
   * On an entry record with infoOk false, the worker reports an error and
   * processResult changes nothing, while Action hashes the entry and records
   * its key. main.go makes no per-entry Info call, so the case does not arise
   * there; the lemma shows why LegacyAgrees needs every infoOk.
   */
  lemma InfoFailureDiffers(s: State, i: nat, e: Entry, md5: Md5, renameOk: bool)
    requires !e.infoOk && !e.isDir && e.contents.Readable?
    ensures Process(s, Work(Job(i, e), md5), renameOk) == s
    ensures Key(|e.contents.data|, md5(e.contents.data)) in Action(s, e, md5, renameOk).seenHashes
  {
  }

  // ---------------------------------------------------------------------
  // The program

  /** fileAction: skip a directory, hash the file, move a duplicate, record the key. */
  method FileAction(fileN: nat, file: Entry, ledger: Ledger, fs: FileSystem, md5: Md5, renameOk: bool)
    modifies ledger, fs
    ensures StateOf(ledger, fs) == Action(old(StateOf(ledger, fs)), file, md5, renameOk)
  {
    if file.isDir {
      return;
    }
    var hashed := CalculateHash(file.contents, file.size, md5);
    if hashed.Err? {
      return;   // the error is only logged
    }
    var hash := hashed.value;
    if hash in ledger.seenHashes {
      var ok := fs.Rename(file.name, renameOk);   // a failure is only logged
    }
    ledger.seenHashes := ledger.seenHashes + {hash};
  }

  /**
   * main: listing is ioutil.ReadDir(".") (None for an error, which panics),
   * mkdirOk whether os.Mkdir("dups") succeeds (a failure is only logged).
   * The new "dups" directory is an entry of ".", so on success the source
   * gains it; the listing was taken before, so the loop never sees it.
   */
  method LegacyMain(listing: Option<seq<Entry>>, mkdirOk: bool, md5: Md5, renameOk: nat -> bool, fs: FileSystem)
    returns (panicked: bool)
    modifies fs
    ensures panicked <==> listing.None?
    ensures panicked ==> unchanged(fs)
    ensures !panicked ==>
      var created := if mkdirOk then {"dups"} else {};
      var final := LegacyAll(State({}, old(fs.src) + created, old(fs.dest)), listing.value, md5, renameOk);
      fs.src == final.src && fs.dest == final.dest
  {
    if listing.None? {
      return true;
    }
    var files := listing.value;
    var made := fs.Mkdir("dups", mkdirOk);   // a failure is only logged; the loop runs regardless
    var ledger := new Ledger();
    ghost var created: set<string> := if mkdirOk then {"dups"} else {};
    ghost var s0 := StateOf(ledger, fs);
    assert s0 == State({}, old(fs.src) + created, old(fs.dest));
    for fileN := 0 to |files|
      invariant StateOf(ledger, fs) == LegacyAll(s0, files[..fileN], md5, renameOk)
    {
      assert files[..fileN + 1][..fileN] == files[..fileN];
      FileAction(fileN, files[fileN], ledger, fs, md5, renameOk(fileN));
    }
    assert files[..|files|] == files;
    panicked := false;
  }
}
