/**
 * The HDFS persistence backend's state protocol and key/path mapping
 * (water.hdfs.PersistHdfs).
 *
 * A value's persistence byte holds the backend's type in its low bits, a
 * goal bit (8: the value should be on disk) and a done bit (16: the goal is
 * met).  Storing and deleting move these two bits through a fixed protocol
 * on the key's home node.  A key's file lives under the HDFS root at the
 * key's name with every ':' written as "%37"; at start-up the files found
 * under the root become keys named by their path relative to the root.
 */
module PersistHdfs {
  import opened Wrappers

  /** The goal bit: persist the value to disk. */
  const GoalBit: bv8 := 8
  /** The done bit: the goal is met. */
  const DoneBit: bv8 := 16
  /** The bits that name the backend (HDFS is type 1). */
  const TypeBits: bv8 := 7

  /** is_goal(v). */
  predicate IsGoal(info: bv8) {
    info & GoalBit != 0
  }

  /** is(v). */
  predicate IsDone(info: bv8) {
    info & DoneBit != 0
  }

  /**
   * initial(): ON_DISK, the byte of a value that is already on disk when the
   * node starts: persisted by HDFS, goal set and met.
   */
  function Initial(): (info: bv8)
    ensures IsGoal(info) && IsDone(info) && info & TypeBits == 1
    ensures info & !(TypeBits | GoalBit | DoneBit) == 0
  {
    1 | 8 | 16
  }

  /**
   * The byte after file_store on the home node: goal set; done set again
   * only when the output stream was created and closed (the stream's
   * `finally` sets it after the close even when the write fails).  Every
   * other bit is kept.
   */
  function StoreInfo(info: bv8, closed: bool): (r: bv8)
    ensures IsGoal(r) && (IsDone(r) <==> closed)
    ensures r & !(GoalBit | DoneBit) == info & !(GoalBit | DoneBit)
  {
    var storing := (info | GoalBit) & !DoneBit;
    if closed then storing | DoneBit else storing
  }

  /**
   * The byte after file_delete on the home node: goal cleared and, whether
   * or not the delete succeeds, done set.  Every other bit is kept.
   */
  function DeleteInfo(info: bv8): (r: bv8)
    ensures !IsGoal(r) && IsDone(r)
    ensures r & !(GoalBit | DoneBit) == info & !(GoalBit | DoneBit)
  {
    var removing := (info & !GoalBit) & !DoneBit;
    removing | DoneBit
  }

  /** A completed store followed by a delete gives back the byte the store started from. */
  lemma DeleteUndoesStore(info: bv8)
    requires !IsGoal(info) && IsDone(info)
    ensures DeleteInfo(StoreInfo(info, true)) == info
  {
  }

  /** A delete leaves the value where a new store may start, and a store where a delete may start. */
  lemma StoreDeleteAlternate(info: bv8)
    requires !IsGoal(info) && IsDone(info)
    ensures var stored := StoreInfo(info, true);
      IsGoal(stored) && IsDone(stored) &&
      !IsGoal(DeleteInfo(stored)) && IsDone(DeleteInfo(stored))
  {
  }

  /** The persistence byte of a value, with whether this node is its key's home. */
  class Value {
    const home: bool
    var persistenceInfo: bv8

    constructor (home: bool, persistenceInfo: bv8)
      ensures this.home == home && this.persistenceInfo == persistenceInfo
    {
      this.home := home;
      this.persistenceInfo := persistenceInfo;
    }

    /** set_info(v, bits). */
    method SetInfo(bits: bv8)
      modifies this
      ensures persistenceInfo == old(persistenceInfo) | bits
    {
      persistenceInfo := persistenceInfo | bits;
    }

    /** clr_info(v, bits). */
    method ClrInfo(bits: bv8)
      modifies this
      ensures persistenceInfo == old(persistenceInfo) & !bits
    {
      persistenceInfo := persistenceInfo & !bits;
    }
  }

  /**
   * file_store(v): only the home node stores.  The value must have no
   * file ("goal off, done on"); it becomes "storing" (goal on, done off),
   * and "stored" (both on) once the output stream was created and closed,
   * even if the write itself failed.  An I/O error from mkdirs, create or
   * close leaves it storing.
   */
  method FileStore(v: Value, closed: bool)
    requires v.home ==> !IsGoal(v.persistenceInfo) && IsDone(v.persistenceInfo)
    modifies v
    ensures v.persistenceInfo == if v.home then StoreInfo(old(v.persistenceInfo), closed) else old(v.persistenceInfo)
  {
    if !v.home {
      return;
    }
    v.SetInfo(GoalBit);
    v.ClrInfo(DoneBit);
    assert IsGoal(v.persistenceInfo) && !IsDone(v.persistenceInfo);
    if closed {
      v.SetInfo(DoneBit);
    }
  }

  /**
   * file_delete(v): only the home node deletes.  The value must be stored
   * (both bits on); it becomes "removing" (both off) and then "removed"
   * (goal off, done on), whether or not the file could be deleted.
   */
  method FileDelete(v: Value)
    requires v.home ==> IsGoal(v.persistenceInfo) && IsDone(v.persistenceInfo)
    modifies v
    ensures v.persistenceInfo == if v.home then DeleteInfo(old(v.persistenceInfo)) else old(v.persistenceInfo)
  {
    if !v.home {
      return;
    }
    v.ClrInfo(GoalBit);
    v.ClrInfo(DoneBit);
    assert !IsGoal(v.persistenceInfo) && !IsDone(v.persistenceInfo);
    v.SetInfo(DoneBit);
  }

  // ---------------------------------------------------------------------------
  // Keys and paths

  /** Path.SEPARATOR. */
  const Separator: string := "/"

  /** s.replace(":", "%37"). */
  function Escape(s: string): (r: string)
    ensures ':' !in r
    ensures ':' !in s ==> r == s
    ensures |r| >= |s|
  {
    if |s| == 0 then ""
    else (if s[0] == ':' then "%37" else [s[0]]) + Escape(s[1..])
  }

  /** getPathForKey(k): the key's name, escaped, under the root. */
  function PathForKey(root: string, key: string): string {
    root + Separator + Escape(key)
  }

  /** Two different keys that getPathForKey places at the same path. */
  lemma EscapeCollides()
    ensures "a:" != "a%37" && PathForKey("ice", "a:") == PathForKey("ice", "a%37")
  {
    assert "a:"[1] != "a%37"[1];
    assert Escape("a:") == "a%37" by {
      assert "a:"[1..] == ":";
      assert Escape(":") == "%37" + Escape("") by { assert ":"[1..] == ""; }
    }
    assert Escape("a%37") == "a%37" by {
      assert ':' !in "a%37";
    }
  }

  /** The longest key name decodeFile accepts. */
  const MaxNameLength := 512

  /**
   * decodeFile(p, prefix): the key name of file `name` found under the
   * folder prefix `prefix` — the prefix without its leading separator, a
   * separator and the name; just the name for an empty prefix.  A name
   * longer than 512 characters fails the assertion.
   */
  function DecodeFile(name: string, prefix: string): (r: Result<string>)
    ensures r.Ok? ==> |r.value| <= MaxNameLength
    ensures r.Ok? <==> |(if |prefix| > 0 then prefix[1..] + Separator + name else name)| <= MaxNameLength
    ensures r.Ok? && |prefix| > 0 ==> r.value == prefix[1..] + Separator + name
  {
    var key := if |prefix| > 0 then prefix[1..] + Separator + name else name;
    if |key| <= MaxNameLength then Ok(key) else Err("name longer than 512")
  }

  /**
   * The prefix loadPersistentKeysFromFolder has built when it reaches the
   * folder root/dirs[0]/.../dirs[|dirs|-1]: a separator before each folder name.
   */
  function FolderPrefix(dirs: seq<string>): string {
    if |dirs| == 0 then "" else FolderPrefix(dirs[..|dirs| - 1]) + Separator + dirs[|dirs| - 1]
  }

  /** parts joined by the separator. */
  function Join(parts: seq<string>): string
    requires |parts| > 0
  {
    if |parts| == 1 then parts[0] else Join(parts[..|parts| - 1]) + Separator + parts[|parts| - 1]
  }

  /** The prefix of a folder below the root is a separator and the folder's relative path. */
  lemma {:induction false} FolderPrefixJoin(dirs: seq<string>)
    requires |dirs| > 0
    ensures FolderPrefix(dirs) == Separator + Join(dirs)
    decreases |dirs|
  {
    if |dirs| > 1 {
      FolderPrefixJoin(dirs[..|dirs| - 1]);
    } else {
      assert dirs[..0] == [];
    }
  }

  /** A file found at root/dirs.../name becomes the key named by its path relative to the root. */
  lemma DecodeFileRelative(dirs: seq<string>, name: string)
    requires DecodeFile(name, FolderPrefix(dirs)).Ok?
    ensures DecodeFile(name, FolderPrefix(dirs)).value == Join(dirs + [name])
  {
    var parts := dirs + [name];
    if |dirs| == 0 {
      assert parts == [name];
    } else {
      FolderPrefixJoin(dirs);
      assert parts[..|parts| - 1] == dirs;
    }
  }

  /** No name in `names` holds a ':'. */
  predicate NoColon(names: seq<string>) {
    forall i :: 0 <= i < |names| ==> ':' !in names[i]
  }

  /**
   * A key loaded from a file whose folder and file names hold no ':' is
   * stored back at the path it was loaded from.
   */
  lemma LoadedKeyMapsBack(root: string, dirs: seq<string>, name: string)
    requires DecodeFile(name, FolderPrefix(dirs)).Ok?
    requires ':' !in name && NoColon(dirs)
    ensures PathForKey(root, DecodeFile(name, FolderPrefix(dirs)).value) == root + Separator + Join(dirs + [name])
  {
    DecodeFileRelative(dirs, name);
    NoColonSnoc(dirs, name);
    JoinNoColon(dirs + [name]);
  }

  /** Appending a name without ':' keeps a sequence of names free of ':'. */
  lemma NoColonSnoc(dirs: seq<string>, name: string)
    requires ':' !in name && NoColon(dirs)
    ensures NoColon(dirs + [name])
  {
    var parts := dirs + [name];
    forall i | 0 <= i < |parts|
      ensures ':' !in parts[i]
    {
      if i < |dirs| { assert parts[i] == dirs[i]; }
    }
  }

  /** Joining names that hold no ':' gives a path without ':'. */
  lemma {:induction false} JoinNoColon(parts: seq<string>)
    requires |parts| > 0 && NoColon(parts)
    ensures ':' !in Join(parts)
    decreases |parts|
  {
    if |parts| > 1 {
      var init := parts[..|parts| - 1];
      assert NoColon(init) by {
        forall i | 0 <= i < |init|
          ensures ':' !in init[i]
        {
          assert init[i] == parts[i];
        }
      }
      JoinNoColon(init);
      assert ':' !in parts[|parts| - 1];
    }
  }
}
