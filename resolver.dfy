/**
 * The duplicate resolver of processResult: a ledger of keys already seen and,
 * per result taken in listing order, one of four decisions. The filesystem is
 * two sets of names, the source and the destination directory; whether a
 * rename succeeds is an input.
 */
module Resolver {
  import opened Worker

  datatype Decision =
    | Skip    // a directory: nothing happens
    | Error   // Info or hashing failed: logged, the file stays
    | Keep    // first result with this key: the key is recorded, the file stays
    | Move    // the key was seen before: renamed into the destination

  function Decide(r: WorkResult, seen: set<string>): (d: Decision)
    ensures d == Skip <==> r.skip
    ensures d == Error <==> !r.skip && r.err.Some?
    ensures d == Keep <==> Hashed(r) && r.hash !in seen
    ensures d == Move <==> Hashed(r) && r.hash in seen
  {
    if r.skip then Skip
    else if r.err.Some? then Error
    else if r.hash in seen then Move
    else Keep
  }

  /** seenHashes, and the names in the source and destination directories. */
  datatype State = State(seenHashes: set<string>, src: set<string>, dest: set<string>)

  /** One call of processResult; renameOk is what os.Rename would report. */
  function Process(s: State, r: WorkResult, renameOk: bool): (t: State)
    ensures !Hashed(r) ==> t == s
    ensures Decide(r, s.seenHashes) == Keep ==> t == s.(seenHashes := s.seenHashes + {r.hash})
    ensures Decide(r, s.seenHashes) == Move ==> t.seenHashes == s.seenHashes
    ensures Decide(r, s.seenHashes) == Move && renameOk ==>
      t.src == s.src - {r.entry.name} && t.dest == s.dest + {r.entry.name}
    ensures Decide(r, s.seenHashes) == Move && !renameOk ==> t == s
  {
    match Decide(r, s.seenHashes)
    case Keep => s.(seenHashes := s.seenHashes + {r.hash})
    case Move =>
      if renameOk then s.(src := s.src - {r.entry.name}, dest := s.dest + {r.entry.name}) else s
    case _ => s
  }

  /** The ledger after the results rs, in order. */
  function SeenAfter(seen: set<string>, rs: seq<WorkResult>): set<string> {
    if rs == [] then seen
    else
      var prev := SeenAfter(seen, rs[..|rs| - 1]);
      var r := rs[|rs| - 1];
      if Decide(r, prev) == Keep then prev + {r.hash} else prev
  }

  /** processResult applied to every result of rs in order. */
  function ProcessAll(s: State, rs: seq<WorkResult>, renameOk: nat -> bool): State {
    if rs == [] then s
    else
      var r := rs[|rs| - 1];
      Process(ProcessAll(s, rs[..|rs| - 1], renameOk), r, renameOk(r.index))
  }

  /** The decision taken for rs[i], after rs[..i] have been processed. */
  function DecisionAt(seen: set<string>, rs: seq<WorkResult>, i: nat): Decision
    requires i < |rs|
  {
    Decide(rs[i], SeenAfter(seen, rs[..i]))
  }

  /** The keys of the hashed results of rs. */
  function HashesOf(rs: seq<WorkResult>): set<string> {
    set i | 0 <= i < |rs| && Hashed(rs[i]) :: rs[i].hash
  }

  /** The names of the results of rs that were decided Move and renamed. */
  function MovedNames(seen: set<string>, rs: seq<WorkResult>, renameOk: nat -> bool): set<string> {
    set i | 0 <= i < |rs| && DecisionAt(seen, rs, i) == Move && renameOk(rs[i].index) :: rs[i].entry.name
  }

  // ---------------------------------------------------------------------
  // Lemmas

  lemma HashesOfSnoc(p: seq<WorkResult>, r: WorkResult)
    ensures HashesOf(p + [r]) == HashesOf(p) + (if Hashed(r) then {r.hash} else {})
  {
    var rs := p + [r];
    forall h | h in HashesOf(rs) ensures h in HashesOf(p) + (if Hashed(r) then {r.hash} else {}) {
      var i :| 0 <= i < |rs| && Hashed(rs[i]) && rs[i].hash == h;
      if i < |p| { assert rs[i] == p[i]; }
    }
    forall h | h in HashesOf(p) ensures h in HashesOf(rs) {
      var i :| 0 <= i < |p| && Hashed(p[i]) && p[i].hash == h;
      assert rs[i] == p[i];
    }
    if Hashed(r) { assert rs[|p|] == r; }
  }

  /** The ledger holds exactly the keys of the hashed results seen so far. */
  lemma {:induction false} SeenAfterContents(seen: set<string>, rs: seq<WorkResult>)
    ensures SeenAfter(seen, rs) == seen + HashesOf(rs)
  {
    if rs != [] {
      var p, r := rs[..|rs| - 1], rs[|rs| - 1];
      SeenAfterContents(seen, p);
      assert rs == p + [r];
      HashesOfSnoc(p, r);
    }
  }

  /** Rename outcomes never reach the ledger: it is SeenAfter for every renameOk. */
  lemma {:induction false} ProcessAllLedger(s: State, rs: seq<WorkResult>, renameOk: nat -> bool)
    ensures ProcessAll(s, rs, renameOk).seenHashes == SeenAfter(s.seenHashes, rs)
  {
    if rs != [] {
      ProcessAllLedger(s, rs[..|rs| - 1], renameOk);
    }
  }

  /**
   * First seen wins: a hashed result is kept exactly when no earlier hashed
   * result (and no key already in the ledger) has its key, and moved exactly
   * when one has.
   */
  lemma FirstWins(seen: set<string>, rs: seq<WorkResult>, i: nat)
    requires i < |rs|
    ensures DecisionAt(seen, rs, i) == Keep <==>
      Hashed(rs[i]) && rs[i].hash !in seen &&
      forall j :: 0 <= j < i && Hashed(rs[j]) ==> rs[j].hash != rs[i].hash
    ensures DecisionAt(seen, rs, i) == Move <==>
      Hashed(rs[i]) && (rs[i].hash in seen || exists j :: 0 <= j < i && Hashed(rs[j]) && rs[j].hash == rs[i].hash)
  {
    var p := rs[..i];
    SeenAfterContents(seen, p);
    if Hashed(rs[i]) && rs[i].hash in HashesOf(p) {
      var j :| 0 <= j < |p| && Hashed(p[j]) && p[j].hash == rs[i].hash;
      assert rs[j] == p[j];
    }
    forall j | 0 <= j < i && Hashed(rs[j]) ensures rs[j].hash in HashesOf(p) {
      assert p[j] == rs[j];
    }
  }

  /** A key is recorded by at most one result: two kept results have different keys. */
  lemma KeptKeysDistinct(seen: set<string>, rs: seq<WorkResult>, i: nat, j: nat)
    requires i < j < |rs|
    requires DecisionAt(seen, rs, i) == Keep && DecisionAt(seen, rs, j) == Keep
    ensures rs[i].hash != rs[j].hash
  {
    FirstWins(seen, rs, i);
    FirstWins(seen, rs, j);
  }

  lemma DecisionAtPrefix(seen: set<string>, rs: seq<WorkResult>, n: nat, i: nat)
    requires i < n <= |rs|
    ensures DecisionAt(seen, rs[..n], i) == DecisionAt(seen, rs, i)
  {
    assert rs[..n][..i] == rs[..i];
  }

  lemma MovedNamesSnoc(seen: set<string>, p: seq<WorkResult>, r: WorkResult, renameOk: nat -> bool)
    ensures MovedNames(seen, p + [r], renameOk) ==
      MovedNames(seen, p, renameOk) +
      (if Decide(r, SeenAfter(seen, p)) == Move && renameOk(r.index) then {r.entry.name} else {})
  {
    var rs := p + [r];
    assert rs[..|p|] == p;
    forall i | 0 <= i < |p| ensures rs[i] == p[i] && DecisionAt(seen, rs, i) == DecisionAt(seen, p, i) {
      DecisionAtPrefix(seen, rs, |p|, i);
    }
    var a, b := MovedNames(seen, rs, renameOk), MovedNames(seen, p, renameOk);
    forall x | x in a ensures x in b + (if Decide(r, SeenAfter(seen, p)) == Move && renameOk(r.index) then {r.entry.name} else {}) {
      var i :| 0 <= i < |rs| && DecisionAt(seen, rs, i) == Move && renameOk(rs[i].index) && rs[i].entry.name == x;
      if i < |p| { assert p[i].entry.name == x; }
    }
    forall x | x in b ensures x in a {
      var i :| 0 <= i < |p| && DecisionAt(seen, p, i) == Move && renameOk(p[i].index) && p[i].entry.name == x;
      assert rs[i].entry.name == x;
    }
    if Decide(r, SeenAfter(seen, p)) == Move && renameOk(r.index) {
      assert DecisionAt(seen, rs, |p|) == Move && rs[|p|] == r;
    }
  }

  /**
   * The directories after processing: exactly the names decided Move whose
   * rename succeeded left the source and arrived in the destination.
   */
  lemma {:induction false} ProcessAllFiles(s: State, rs: seq<WorkResult>, renameOk: nat -> bool)
    ensures ProcessAll(s, rs, renameOk).src == s.src - MovedNames(s.seenHashes, rs, renameOk)
    ensures ProcessAll(s, rs, renameOk).dest == s.dest + MovedNames(s.seenHashes, rs, renameOk)
  {
    if rs != [] {
      var p, r := rs[..|rs| - 1], rs[|rs| - 1];
      ProcessAllFiles(s, p, renameOk);
      ProcessAllLedger(s, p, renameOk);
      assert rs == p + [r];
      MovedNamesSnoc(s.seenHashes, p, r, renameOk);
    }
  }

  /**
   * Partition of the entries: when names are distinct and every one starts in
   * the source, a file ends in the destination (and not in the source) exactly
   * when it was decided Move and its rename succeeded; every other file,
   * including one whose rename failed, is still in the source.
   */
  lemma Placement(s: State, rs: seq<WorkResult>, renameOk: nat -> bool, i: nat)
    requires i < |rs|
    requires forall j :: 0 <= j < |rs| ==> rs[j].entry.name in s.src
    requires forall j, k :: 0 <= j < k < |rs| ==> rs[j].entry.name != rs[k].entry.name
    ensures var t := ProcessAll(s, rs, renameOk);
      && (rs[i].entry.name in t.src <==> !(DecisionAt(s.seenHashes, rs, i) == Move && renameOk(rs[i].index)))
      && (rs[i].entry.name in t.dest <==>
           rs[i].entry.name in s.dest || (DecisionAt(s.seenHashes, rs, i) == Move && renameOk(rs[i].index)))
  {
    ProcessAllFiles(s, rs, renameOk);
    var moved := MovedNames(s.seenHashes, rs, renameOk);
    if rs[i].entry.name in moved {
      var j :| 0 <= j < |rs| && DecisionAt(s.seenHashes, rs, j) == Move && renameOk(rs[j].index) && rs[j].entry.name == rs[i].entry.name;
      assert j == i;
    }
  }

  /** rs without the results decided Move: what the source keeps after a run whose renames all succeed. */
  function Survivors(seen: set<string>, rs: seq<WorkResult>): (ks: seq<WorkResult>)
    ensures |ks| <= |rs|
  {
    if rs == [] then []
    else
      var p := rs[..|rs| - 1];
      var r := rs[|rs| - 1];
      Survivors(seen, p) + (if Decide(r, SeenAfter(seen, p)) == Move then [] else [r])
  }

  /**
   * The keep-set is idempotent: running again on the survivors leaves the
   * same ledger and decides no move.
   */
  lemma {:induction false} SecondRunMovesNothing(seen: set<string>, rs: seq<WorkResult>)
    ensures SeenAfter(seen, Survivors(seen, rs)) == SeenAfter(seen, rs)
    ensures forall i :: 0 <= i < |Survivors(seen, rs)| ==> DecisionAt(seen, Survivors(seen, rs), i) != Move
  {
    if rs != [] {
      var p, r := rs[..|rs| - 1], rs[|rs| - 1];
      SecondRunMovesNothing(seen, p);
      var sp := Survivors(seen, p);
      var ks := Survivors(seen, rs);
      if Decide(r, SeenAfter(seen, p)) == Move {
        assert ks == sp;
      } else {
        assert ks == sp + [r];
        assert ks[..|ks| - 1] == sp && ks[|ks| - 1] == r;
        assert SeenAfter(seen, ks) == SeenAfter(seen, rs);
        assert ks[..|sp|] == sp;
        forall i | 0 <= i < |ks| ensures DecisionAt(seen, ks, i) != Move {
          if i < |sp| {
            DecisionAtPrefix(seen, ks, |sp|, i);
          }
        }
      }
    }
  }

  lemma ProcessAllSnoc(s: State, rs: seq<WorkResult>, r: WorkResult, renameOk: nat -> bool)
    ensures ProcessAll(s, rs + [r], renameOk) == Process(ProcessAll(s, rs, renameOk), r, renameOk(r.index))
  {
    assert (rs + [r])[..|rs|] == rs;
  }

  lemma {:induction false} ProcessAllAppend(s: State, a: seq<WorkResult>, b: seq<WorkResult>, renameOk: nat -> bool)
    ensures ProcessAll(s, a + b, renameOk) == ProcessAll(ProcessAll(s, a, renameOk), b, renameOk)
  {
    if b == [] {
      assert a + b == a;
    } else {
      var bp := b[..|b| - 1];
      ProcessAllAppend(s, a, bp, renameOk);
      assert (a + b)[..|a + b| - 1] == a + bp;
    }
  }

  // ---------------------------------------------------------------------
  // The mutable state: Go's seenHashes map and the filesystem

  /** seenHashes, Go's map[string]struct{} used as a set. */
  class Ledger {
    var seenHashes: set<string>

    constructor ()
      ensures seenHashes == {}
    {
      seenHashes := {};
    }
  }

  /** The names in the source and in the destination directory. */
  class FileSystem {
    var src: set<string>
    var dest: set<string>

    constructor (src: set<string>, dest: set<string>)
      ensures this.src == src && this.dest == dest
    {
      this.src := src;
      this.dest := dest;
    }

    /** os.Rename of src/name to dest/name; `succeeds` is its outcome. */
    method Rename(name: string, succeeds: bool) returns (ok: bool)
      modifies this
      ensures ok == succeeds
      ensures ok ==> src == old(src) - {name} && dest == old(dest) + {name}
      ensures !ok ==> src == old(src) && dest == old(dest)
    {
      ok := succeeds;
      if ok {
        src := src - {name};
        dest := dest + {name};
      }
    }

    /** os.Mkdir of a directory `name` inside the source; `succeeds` is its outcome. */
    method Mkdir(name: string, succeeds: bool) returns (ok: bool)
      modifies this
      ensures ok == succeeds
      ensures ok ==> src == old(src) + {name}
      ensures !ok ==> src == old(src)
      ensures dest == old(dest)
    {
      ok := succeeds;
      if ok {
        src := src + {name};
      }
    }
  }

  function StateOf(ledger: Ledger, fs: FileSystem): State
    reads ledger, fs
  {
    State(ledger.seenHashes, fs.src, fs.dest)
  }

  /** processResult: skip, report, record the key, or move the duplicate. */
  method ProcessResult(r: WorkResult, ledger: Ledger, fs: FileSystem, renameOk: bool)
    modifies ledger, fs
    ensures StateOf(ledger, fs) == Process(old(StateOf(ledger, fs)), r, renameOk)
  {
    if r.skip {
      return;
    }
    if r.err.Some? {
      return;   // the error is only logged
    }
    if r.hash in ledger.seenHashes {
      var ok := fs.Rename(r.entry.name, renameOk);   // a failure is only logged
    } else {
      ledger.seenHashes := ledger.seenHashes + {r.hash};
    }
  }
}
