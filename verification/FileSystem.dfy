/** A directory tree with what is on disk kept apart from what programs see, and crashes. */
module FileSystem {
  import opened Wrappers
  import opened Utf8

  /** The directories on the way to one directory, and that directory's entries.
      `levels` of `depth` directories exist; `synced` holds those whose own entry is on disk.
      `may` holds, for each name, what a crash may leave of it: entries as they were when the directory
      was last synced, or after any change since. A file's bytes are on disk when it is `safe`. */
  datatype Fs = Fs(
    depth: nat,
    levels: nat,
    synced: set<nat>,
    entries: map<string, nat>,
    may: map<string, set<Option<nat>>>,
    data: map<nat, seq<Byte>>,
    safe: set<nat>)
  {
    function Entry(name: string): Option<nat> {
      if name in entries then Some(entries[name]) else None
    }

    function May(name: string): set<Option<nat>> {
      if name in may then may[name] else {None}
    }

    function Bytes(file: nat): Option<seq<Byte>> {
      if file in data then Some(data[file]) else None
    }

    /** What a program that opens the file reads. */
    function Read(name: string): Option<seq<Byte>> {
      if name in entries then Bytes(entries[name]) else None
    }

    function Link(name: string, file: nat): Fs {
      this.(entries := entries[name := file], may := may[name := May(name) + {Some(file)}])
    }

    function Drop(name: string): Fs {
      this.(entries := entries - {name}, may := may[name := May(name) + {None}])
    }

    function MakeLevel(): Fs {
      this.(levels := levels + 1)
    }

    function SyncLevel(level: nat): Fs {
      this.(synced := synced + {level})
    }

    function Create(name: string, file: nat): Fs {
      Link(name, file).(data := data[file := []])
    }

    function Write(file: nat, bytes: seq<Byte>): Fs {
      this.(data := data[file := bytes], safe := safe - {file})
    }

    function SyncFile(file: nat): Fs {
      this.(safe := safe + {file})
    }

    function Rename(from: string, to: string): Fs
      requires from in entries
    {
      Link(to, entries[from]).Drop(from)
    }

    function SyncDirectory(): Fs {
      this.(may := map name | name in entries :: {Some(entries[name])})
    }

    /** Every directory down to `level` will be found after a crash. */
    ghost predicate Anchored(level: nat) {
      level <= levels && forall k | 0 < k <= level :: k in synced
    }
  }

  /** What may be found after a crash in state `fs`: directories from the first one on whose entry was
      on disk, each name as some moment since the last sync left it, safe bytes as they were and others
      as they may be; and all of that is now on disk. */
  ghost predicate Survives(fs: Fs, found: Fs) {
    && found.depth == fs.depth && found.levels <= fs.levels
    && (forall level: nat | fs.Anchored(level) :: level <= found.levels)
    && (forall name: string {:trigger found.Entry(name)} ::
      found.Entry(name) in (if found.levels == fs.depth then fs.May(name) else {None}))
    && (forall name | name in found.entries :: found.entries[name] in found.data)
    && (forall file | file in fs.safe :: found.Bytes(file) == fs.Bytes(file))
    && found.SyncDirectory() == found && found.safe == found.data.Keys && (forall k | 0 < k <= found.levels :: k in found.synced)
  }

  /** A name whose file only ever changes by replacement. */
  predicate IsRecord(name: string) {
    name != [] && name[0] != '.'
  }

  ghost predicate Reliable(fs: Fs, name: string) {
    && fs.Entry(name) in fs.May(name)
    && (fs.Entry(name).Some? ==> fs.entries[name] in fs.data)
    && (fs.levels < fs.depth ==> fs.May(name) == {None})
    && (IsRecord(name) ==> forall file | Some(file) in fs.May(name) :: file in fs.safe)
  }

  /** Whatever a crash leaves of a record is a file whose bytes are on disk. */
  ghost predicate Consistent(fs: Fs) {
    fs.levels <= fs.depth && fs.safe <= fs.data.Keys && forall name: string :: Reliable(fs, name)
  }

  /** One record while `name` is replaced by `bytes`: what a crash may leave of it, and what a reader
      finds in it, is as before or, for this one, exactly these bytes. */
  ghost predicate Replaces(before: Fs, fs: Fs, name: string, bytes: seq<Byte>, other: string) {
    && (forall kept | kept in fs.May(other) ::
      kept in before.May(other) || (other == name && kept.Some? && kept.value in fs.safe && fs.Bytes(kept.value) == Some(bytes)))
    && (fs.Read(other) == before.Read(other) || (other == name && fs.Read(other) == Some(bytes)))
  }

  /** A state met while the record `name` is replaced by `bytes`; nothing on disk was disturbed. */
  ghost predicate Replacing(before: Fs, fs: Fs, name: string, bytes: seq<Byte>) {
    && fs.depth == before.depth && before.levels <= fs.levels && before.synced <= fs.synced
    && (forall file | file in before.safe :: file in fs.safe && fs.Bytes(file) == before.Bytes(file))
    && (forall other | IsRecord(other) :: Replaces(before, fs, name, bytes, other))
  }

  ghost predicate Steady(before: Fs, fs: Fs, name: string, bytes: seq<Byte>) {
    Consistent(before) && Consistent(fs) && Replacing(before, fs, name, bytes)
  }

  lemma {:induction false} Chained(before: Fs, fs: Fs, after: Fs, name: string, bytes: seq<Byte>)
    requires Steady(before, fs, name, bytes) && Steady(fs, after, name, bytes)
    ensures Steady(before, after, name, bytes)
  {
    forall other | IsRecord(other) ensures Replaces(before, after, name, bytes, other) {
      assert Replaces(before, fs, name, bytes, other) && Replaces(fs, after, name, bytes, other);
    }
  }

  // ---------------------------------------------------------------------------------------------
  // Each step keeps it
  // ---------------------------------------------------------------------------------------------

  lemma {:induction false} MakingLevels(fs: Fs, name: string, bytes: seq<Byte>)
    requires Consistent(fs) && fs.levels < fs.depth
    ensures Steady(fs, fs.MakeLevel(), name, bytes)
  {
    forall other: string ensures Reliable(fs.MakeLevel(), other) {
      assert Reliable(fs, other);
    }
  }

  lemma {:induction false} SyncingLevels(fs: Fs, name: string, bytes: seq<Byte>, level: nat)
    requires Consistent(fs)
    ensures Steady(fs, fs.SyncLevel(level), name, bytes)
  {
    forall other: string ensures Reliable(fs.SyncLevel(level), other) {
      assert Reliable(fs, other);
    }
  }

  lemma {:induction false} CreatingScratch(fs: Fs, name: string, bytes: seq<Byte>, scratch: string, file: nat)
    requires Consistent(fs) && fs.levels == fs.depth && !IsRecord(scratch) && file !in fs.data
    ensures Steady(fs, fs.Create(scratch, file), name, bytes)
  {
    forall other: string
      ensures Reliable(fs.Create(scratch, file), other)
      ensures IsRecord(other) ==> Replaces(fs, fs.Create(scratch, file), name, bytes, other)
    {
      assert Reliable(fs, other);
      assert IsRecord(other) && other in fs.entries ==> fs.Entry(other) in fs.May(other);
    }
  }

  lemma {:induction false} WritingScratch(fs: Fs, name: string, bytes: seq<Byte>, file: nat, part: seq<Byte>)
    requires Consistent(fs) && file !in fs.safe
    ensures Steady(fs, fs.Write(file, part), name, bytes)
  {
    forall other: string
      ensures Reliable(fs.Write(file, part), other)
      ensures IsRecord(other) ==> Replaces(fs, fs.Write(file, part), name, bytes, other)
    {
      assert Reliable(fs, other);
      assert IsRecord(other) && other in fs.entries ==> fs.Entry(other) in fs.May(other);
    }
  }

  lemma {:induction false} SyncingScratch(fs: Fs, name: string, bytes: seq<Byte>, file: nat)
    requires Consistent(fs) && file in fs.data
    ensures Steady(fs, fs.SyncFile(file), name, bytes)
  {
    forall other: string ensures Reliable(fs.SyncFile(file), other) {
      assert Reliable(fs, other);
    }
  }

  lemma {:induction false} Publishing(fs: Fs, name: string, bytes: seq<Byte>, scratch: string)
    requires Consistent(fs) && fs.levels == fs.depth && !IsRecord(scratch) && scratch in fs.entries
    requires var file := fs.entries[scratch]; file in fs.safe && fs.Bytes(file) == Some(bytes)
    ensures Steady(fs, fs.Rename(scratch, name), name, bytes)
  {
    var file, after := fs.entries[scratch], fs.Rename(scratch, name);
    forall other: string
      ensures Reliable(after, other)
      ensures IsRecord(other) ==> Replaces(fs, after, name, bytes, other)
    {
      assert Reliable(fs, other);
      assert after.May(other) ==
        fs.May(other) + (if other == name then {Some(file)} else {}) + (if other == scratch then {None} else {});
    }
  }

  lemma {:induction false} SyncingDirectory(fs: Fs, name: string, bytes: seq<Byte>)
    requires Consistent(fs)
    ensures Steady(fs, fs.SyncDirectory(), name, bytes)
  {
    var after := fs.SyncDirectory();
    forall other: string
      ensures Reliable(after, other)
      ensures IsRecord(other) ==> Replaces(fs, after, name, bytes, other)
    {
      assert Reliable(fs, other);
      assert after.May(other) == {fs.Entry(other)};
    }
  }

  lemma {:induction false} DroppingScratch(fs: Fs, name: string, bytes: seq<Byte>, scratch: string)
    requires Consistent(fs) && fs.levels == fs.depth && !IsRecord(scratch)
    ensures Steady(fs, fs.Drop(scratch), name, bytes)
  {
    forall other: string ensures Reliable(fs.Drop(scratch), other) {
      assert Reliable(fs, other);
    }
  }

  // ---------------------------------------------------------------------------------------------
  // After a crash
  // ---------------------------------------------------------------------------------------------

  /** What may have been found of a record after a crash in state `fs`. */
  ghost predicate MayFind(fs: Fs, name: string, content: Option<seq<Byte>>) {
    exists kept :: kept in fs.May(name) && content == if kept.None? then None else fs.Bytes(kept.value)
  }

  /** A crash leaves each record as some crash before the replacement could have left it, or, for the
      record being replaced, as wholly the new one: nothing is ever found in part. Where it loses a
      directory, no record is found at all. */
  lemma {:induction false} CrashFindsOldOrNew(before: Fs, fs: Fs, found: Fs, name: string, bytes: seq<Byte>, other: string)
    requires Steady(before, fs, name, bytes) && Survives(fs, found) && IsRecord(other)
    ensures if found.levels < found.depth then found.Read(other) == None
      else MayFind(before, other, found.Read(other)) || (other == name && found.Read(other) == Some(bytes))
  {
    var kept := found.Entry(other);
    assert Reliable(before, other) && Reliable(fs, other) && Replaces(before, fs, name, bytes, other);
    assert found.levels == fs.depth ==> kept in fs.May(other);
  }

  /** Where every directory was on disk, a record on disk is found again. */
  lemma {:induction false} CrashFindsDurable(fs: Fs, found: Fs, name: string, bytes: seq<Byte>)
    requires Consistent(fs) && Survives(fs, found) && IsRecord(name)
    requires fs.Anchored(fs.depth) && fs.SyncDirectory() == fs && fs.Read(name) == Some(bytes)
    ensures found.levels == found.depth && found.Read(name) == Some(bytes)
  {
    assert Reliable(fs, name);
    assert fs.May(name) == {fs.Entry(name)};
    assert found.Entry(name) in fs.May(name);
  }

  /** What is found after a crash is consistent again. */
  lemma {:induction false} CrashLeavesConsistent(fs: Fs, found: Fs)
    requires Consistent(fs) && Survives(fs, found)
    ensures Consistent(found)
  {
    forall name: string ensures Reliable(found, name) {
      assert Reliable(fs, name);
      assert found.SyncDirectory().May(name) == {found.Entry(name)};
    }
  }

  // ---------------------------------------------------------------------------------------------
  // Any run of replacements and crashes
  // ---------------------------------------------------------------------------------------------

  /** What happens between two states: a record is replaced, in whole or in part, or there is a crash. */
  datatype Turn = Replacement(name: string, bytes: seq<Byte>) | Crash

  ghost predicate Turns(before: Fs, after: Fs, turn: Turn) {
    match turn
    case Replacement(name, bytes) => Steady(before, after, name, bytes)
    case Crash => Survives(before, after)
  }

  ghost predicate Runs(states: seq<Fs>, turns: seq<Turn>) {
    |states| == |turns| + 1 && forall i | 0 <= i < |turns| :: Turns(states[i], states[i + 1], turns[i])
  }

  /** Whatever a crash leaves of the record is one of these contents. */
  ghost predicate Among(fs: Fs, name: string, contents: set<Option<seq<Byte>>>) {
    forall kept | kept in fs.May(name) :: (if kept.None? then None else fs.Bytes(kept.value)) in contents
  }

  /** The contents a record was replaced by. */
  function Written(turns: seq<Turn>, name: string): set<Option<seq<Byte>>> {
    set turn | turn in turns && turn.Replacement? && turn.name == name :: Some(turn.bytes)
  }

  lemma {:induction false} TurnKeepsContents(before: Fs, after: Fs, turn: Turn, name: string, contents: set<Option<seq<Byte>>>)
    requires Consistent(before) && Turns(before, after, turn) && IsRecord(name)
    requires None in contents && Among(before, name, contents)
    ensures Consistent(after) && Among(after, name, contents + Written([turn], name))
  {
    assert Reliable(before, name);
    match turn {
      case Replacement(replaced, bytes) =>
        assert Replaces(before, after, replaced, bytes, name);
        assert turn in [turn];
      case Crash =>
        CrashLeavesConsistent(before, after);
        assert after.SyncDirectory().May(name) == {after.Entry(name)};
    }
  }

  /** Over any run of replacements, finished or not, and crashes: what is read of a record is nothing,
      what may have been there at first, or wholly one of the contents it was replaced by. */
  lemma {:induction false} RunsLeaveRecordsWhole(states: seq<Fs>, turns: seq<Turn>, name: string, contents: set<Option<seq<Byte>>>)
    requires Runs(states, turns) && Consistent(states[0]) && IsRecord(name)
    requires None in contents && Among(states[0], name, contents)
    ensures var last := states[|turns|];
      Consistent(last) && Among(last, name, contents + Written(turns, name)) && last.Read(name) in contents + Written(turns, name)
    decreases |turns|
  {
    var n := |turns|;
    if n == 0 {
      assert Reliable(states[0], name);
    } else {
      var earlier := turns[..n - 1];
      forall i | 0 <= i < n - 1 ensures Turns(states[..n][i], states[..n][i + 1], earlier[i]) {
        assert Turns(states[i], states[i + 1], turns[i]);
      }
      RunsLeaveRecordsWhole(states[..n], earlier, name, contents);
      assert Turns(states[n - 1], states[n], turns[n - 1]);
      TurnKeepsContents(states[n - 1], states[n], turns[n - 1], name, contents + Written(earlier, name));
      assert turns == earlier + [turns[n - 1]];
      assert Reliable(states[n], name);
    }
  }

  /** How many directories from the first on are sure to be found. */
  ghost function SureLevels(fs: Fs, level: nat): (sure: nat)
    requires level <= fs.levels
    ensures sure <= level && fs.Anchored(sure)
    ensures forall other: nat | other <= level && fs.Anchored(other) :: other <= sure
  {
    if fs.Anchored(level) then level else SureLevels(fs, level - 1)
  }

  /** Where some directory's own entry is not on disk, a crash may lose everything below it. */
  lemma {:induction false} CrashMayLose(fs: Fs) returns (found: Fs)
    requires Consistent(fs) && !fs.Anchored(fs.depth)
    ensures Survives(fs, found) && found.entries == map[]
  {
    var sure := SureLevels(fs, fs.levels);
    found := Fs(fs.depth, sure, set k | k in fs.synced && 0 < k <= sure, map[], map[], fs.data, fs.data.Keys);
    assert sure < fs.depth;
    assert found.SyncDirectory().may == map[];
  }

  // ---------------------------------------------------------------------------------------------
  // The disk
  // ---------------------------------------------------------------------------------------------

  /** A system call works, fails without effect, or fails although it took effect. */
  datatype Fate = Works | FailsBefore | FailsAfter

  class Disk {
    var fs: Fs
    var fates: seq<Fate>
    ghost var trail: seq<Fs>

    constructor (fs: Fs, fates: seq<Fate>)
      ensures this.fs == fs && this.fates == fates && trail == []
    {
      this.fs := fs;
      this.fates := fates;
      trail := [];
    }

    /** Every state passed through since the `from`th was one met while `name` is replaced. */
    ghost predicate Steadily(before: Fs, from: nat, name: string, bytes: seq<Byte>)
      reads this
    {
      && from <= |trail| && Steady(before, fs, name, bytes)
      && forall i | from <= i < |trail| :: Steady(before, trail[i], name, bytes)
    }

    /** What becomes of the next call; calls work when nothing else is said. */
    function Coming(): Fate
      reads `fates
    {
      if fates == [] then Works else fates[0]
    }

    function Later(): seq<Fate>
      reads `fates
    {
      if fates == [] then [] else fates[1..]
    }

    method NextFate() returns (fate: Fate)
      modifies `fates
      ensures fate == old(Coming()) && fates == old(Later())
    {
      fate := Works;
      if fates != [] {
        fate := fates[0];
        fates := fates[1..];
      }
    }

    /** One call that would turn the state into `after`. */
    method Call(after: Fs, ghost before: Fs, ghost from: nat, ghost name: string, ghost bytes: seq<Byte>) returns (ok: bool)
      requires Steadily(before, from, name, bytes) && Steady(fs, after, name, bytes)
      modifies this
      ensures Steadily(before, from, name, bytes) && fs == (if old(Coming()).FailsBefore? then old(fs) else after)
      ensures (ok <==> old(Coming()).Works?) && fates == old(Later())
      ensures |trail| == |old(trail)| + 1 && trail[..|old(trail)|] == old(trail)
    {
      Chained(before, fs, after, name, bytes);
      var fate := NextFate();
      if fate != FailsBefore {
        fs := after;
      }
      trail := trail + [fs];
      ok := fate == Works;
    }

    /** A directory and those above it: made and synced one by one, where they do not exist. */
    method MakeDirectories(level: nat, ghost before: Fs, ghost from: nat, ghost name: string, ghost bytes: seq<Byte>) returns (ok: bool)
      requires Steadily(before, from, name, bytes) && level <= fs.depth
      modifies this
      ensures Steadily(before, from, name, bytes)
      ensures |trail| >= |old(trail)| && trail[..|old(trail)|] == old(trail)
      ensures fs.entries == old(fs.entries) && fs.data == old(fs.data) && fs.safe == old(fs.safe) && fs.depth == old(fs.depth)
      ensures ok ==> fs.levels == if level <= old(fs.levels) then old(fs.levels) else level
      ensures forall k | 0 < k <= old(fs.levels) :: k in fs.synced <==> k in old(fs.synced)
      ensures ok ==> forall k | old(fs.levels) < k <= fs.levels :: k in fs.synced
      ensures level <= old(fs.levels) ==> ok && fs == old(fs) && fates == old(fates)
      ensures old(fates) == [] ==> ok && fates == []
      ensures level == old(fs.levels) + 1 && old(fates) == [Works, FailsBefore] ==>
        !ok && fates == [] && fs.levels == level && fs.synced == old(fs.synced)
      decreases level
    {
      if level <= fs.levels {
        return true;
      }
      ok := MakeDirectories(level - 1, before, from, name, bytes);
      if !ok {
        return;
      }
      MakingLevels(fs, name, bytes);
      ok := Call(fs.MakeLevel(), before, from, name, bytes);
      if !ok {
        return;
      }
      SyncingLevels(fs, name, bytes, level);
      ok := Call(fs.SyncLevel(level), before, from, name, bytes);
    }
  }
}
