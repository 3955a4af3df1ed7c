/**
 * The fixture of TestRun: four files listed by name, file1, file3 and file4
 * holding "hello world" and file2 holding "hello universe". The method
 * TestRun shows that, for every MD5 function and every arrival order of the
 * workers' results, Run keeps file1 and file2 and moves file3 and file4 into
 * the destination.
 */
module Scenario {
  import opened Wrappers
  import opened Entries
  import opened FileKey
  import opened Worker
  import opened Resolver
  import opened Reorder
  import opened MoveDups

  /** The bytes of an ASCII string. */
  function Ascii(s: string): (bs: seq<byte>)
    requires forall i :: 0 <= i < |s| ==> s[i] as int < 256
    ensures |bs| == |s|
  {
    seq(|s|, i requires 0 <= i < |s| => s[i] as int as byte)
  }

  function HelloWorld(): seq<byte> { Ascii("hello world") }

  function HelloUniverse(): seq<byte> { Ascii("hello universe") }

  function File(name: string, data: seq<byte>): Entry {
    Entry(name, false, true, |data|, Readable(data))
  }

  /** os.ReadDir(srcDir) in the test: sorted by name. */
  function Listing(): seq<Entry> {
    [ File("file1.txt", HelloWorld()), File("file2.txt", HelloUniverse()),
      File("file3.txt", HelloWorld()), File("file4.txt", HelloWorld()) ]
  }

  function AllRenamesSucceed(): nat -> bool { _ => true }

  /** Every file is hashed; file1, file3 and file4 share a key that file2 does not have. */
  lemma ScenarioKeys(md5: Md5)
    ensures var rs := Results(Listing(), md5);
      && |rs| == 4
      && (forall i :: 0 <= i < 4 ==> Hashed(rs[i]))
      && rs[2].hash == rs[0].hash && rs[3].hash == rs[0].hash && rs[1].hash != rs[0].hash
      && rs[0].entry.name == "file1.txt" && rs[1].entry.name == "file2.txt"
      && rs[2].entry.name == "file3.txt" && rs[3].entry.name == "file4.txt"
  {
    var rs := Results(Listing(), md5);
    var w, u := HelloWorld(), HelloUniverse();
    KeyInjective(|w|, md5(w), |u|, md5(u));
    assert rs[0].hash == Key(|w|, md5(w));
    assert rs[1].hash == Key(|u|, md5(u));
    assert rs[2].hash == Key(|w|, md5(w));
    assert rs[3].hash == Key(|w|, md5(w));
  }

  /** The decisions of TestRun's comments: kept, kept, moved, moved. */
  lemma ScenarioDecisions(md5: Md5)
    ensures var rs := Results(Listing(), md5);
      && DecisionAt({}, rs, 0) == Keep
      && DecisionAt({}, rs, 1) == Keep
      && DecisionAt({}, rs, 2) == Move
      && DecisionAt({}, rs, 3) == Move
  {
    var rs := Results(Listing(), md5);
    ScenarioKeys(md5);
    FirstWins({}, rs, 0);
    FirstWins({}, rs, 1);
    FirstWins({}, rs, 2);
    FirstWins({}, rs, 3);
  }

  /** Exactly the results decided Move are renamed when every rename succeeds. */
  lemma MovedAreThirdAndFourth(s: State, rs: seq<WorkResult>)
    requires |rs| == 4
    requires rs[2].entry.name == "file3.txt" && rs[3].entry.name == "file4.txt"
    requires DecisionAt(s.seenHashes, rs, 0) == Keep && DecisionAt(s.seenHashes, rs, 1) == Keep
    requires DecisionAt(s.seenHashes, rs, 2) == Move && DecisionAt(s.seenHashes, rs, 3) == Move
    ensures ProcessAll(s, rs, AllRenamesSucceed()).src == s.src - {"file3.txt", "file4.txt"}
    ensures ProcessAll(s, rs, AllRenamesSucceed()).dest == s.dest + {"file3.txt", "file4.txt"}
  {
    ProcessAllFiles(s, rs, AllRenamesSucceed());
    var moved := MovedNames(s.seenHashes, rs, AllRenamesSucceed());
    assert "file3.txt" in moved && "file4.txt" in moved;
    forall x | x in moved ensures x == "file3.txt" || x == "file4.txt" {
      var i :| 0 <= i < |rs| && DecisionAt(s.seenHashes, rs, i) == Move && rs[i].entry.name == x;
      assert i == 2 || i == 3;
    }
    assert moved == {"file3.txt", "file4.txt"};
  }

  /**
   * TestRun's assertions: with every rename succeeding, the source keeps
   * file1 and file2 and the destination receives file3 and file4.
   */
  lemma TestRunOutcome(md5: Md5)
    ensures var t := ProcessAll(State({}, {"file1.txt", "file2.txt", "file3.txt", "file4.txt"}, {}),
                                Results(Listing(), md5), AllRenamesSucceed());
      t.src == {"file1.txt", "file2.txt"} && t.dest == {"file3.txt", "file4.txt"}
  {
    ScenarioKeys(md5);
    ScenarioDecisions(md5);
    MovedAreThirdAndFourth(State({}, {"file1.txt", "file2.txt", "file3.txt", "file4.txt"}, {}), Results(Listing(), md5));
  }

  /**
   * TestRun itself: Run on the fixture, a fresh source directory holding the
   * four files and an empty destination, for any arrival order of the results.
   */
  method TestRun(md5: Md5, order: seq<nat>) returns (err: Option<RunError>, src: set<string>, dest: set<string>)
    requires IsPermutation(order, 4)
    ensures err == None
    ensures src == {"file1.txt", "file2.txt"} && dest == {"file3.txt", "file4.txt"}
  {
    var fs := new FileSystem({"file1.txt", "file2.txt", "file3.txt", "file4.txt"}, {});
    ghost var processed: seq<WorkResult>;
    err, processed := Run(Some(Listing()), true, md5, order, AllRenamesSucceed(), fs);
    TestRunOutcome(md5);
    src, dest := fs.src, fs.dest;
  }
}
