/**
Atomic replacement of one file: write a temporary sibling, sync it, rename it
over the target, sync the directory.  Any operation may fail, the process may
die at any of them, and a power loss may tear data that was never synced and
may undo a rename whose directory was never synced.
*/
module SensitiveFile {
  import opened Common

  /** `Torn` is an empty or half-written file, or one a power loss has damaged. */
  datatype Content<T> = Torn | Whole(value: T, synced: bool)

  datatype Status = Fine | Failed | Dead

  /** How many operations of a machine may still fail, and how many deaths there may be. */
  class Faults {
    var errors: nat
    var deaths: nat

    constructor (errors: nat, deaths: nat)
      ensures this.errors == errors && this.deaths == deaths
    {
      this.errors, this.deaths := errors, deaths;
    }

    /** This many errors and deaths are left. */
    predicate Left(errors: nat, deaths: nat)
      reads this
    {
      this.errors == errors && this.deaths == deaths
    }

    /** What becomes of the next operation. */
    method Strike() returns (s: Status)
      modifies this
      ensures Charged(s, old(errors), old(deaths), errors, deaths)
    {
      s := Fine;
      if errors > 0 {
        if * { errors, s := errors - 1, Failed; }
      }
      if s == Fine && deaths > 0 {
        if * { deaths, s := deaths - 1, Dead; }
      }
    }
  }

  /** A failure is paid for by an error, a death by a death. */
  predicate Charged(s: Status, e0: nat, d0: nat, e: nat, d: nat) {
    && e <= e0 && d <= d0
    && (s == Failed ==> e < e0)
    && (s == Dead ==> d < d0)
  }

  class AtomicFile<T(==)> {
    const faults: Faults
    var visible: Option<Content<T>>
    /** The directory entry that outlives a power loss. */
    var durable: Option<Content<T>>
    var tmp: Option<Content<T>>

    /** A reader finds nothing or one complete, synced value: never a torn one. */
    ghost predicate Valid()
      reads this
    {
      && (visible.Some? ==> visible.value.Whole? && visible.value.synced)
      && (durable.Some? ==> durable.value.Whole? && durable.value.synced)
    }

    function Read(): (r: Option<T>)
      reads this
    {
      if visible.Some? && visible.value.Whole? then Some(visible.value.value) else None
    }

    constructor (initial: Option<T>, faults: Faults)
      ensures Valid() && Read() == initial && durable == visible && tmp == None && this.faults == faults
    {
      this.faults := faults;
      visible := match initial case None => None case Some(value) => Some(Whole(value, true));
      durable := match initial case None => None case Some(value) => Some(Whole(value, true));
      tmp := None;
    }

    /** One system call on the temporary file, which an error or a death leaves undone. */
    method SetTmp(next: Option<Content<T>>) returns (s: Status)
      modifies this`tmp, faults
      ensures Charged(s, old(faults.errors), old(faults.deaths), faults.errors, faults.deaths)
      ensures s == Fine ==> tmp == next
      ensures s != Fine ==> tmp == old(tmp) || (tmp.Some? && tmp.value == Torn)
    {
      s := faults.Strike();
      if s == Fine { tmp := next; }
      else if s == Failed {
        if * { tmp := Some(Torn); }
      }
    }

    method Rename() returns (s: Status)
      requires tmp.Some?
      modifies this`tmp, this`visible, faults
      ensures Charged(s, old(faults.errors), old(faults.deaths), faults.errors, faults.deaths)
      ensures s == Fine ==> visible == old(tmp) && tmp == None
      ensures s != Fine ==> visible == old(visible) && tmp == old(tmp)
    {
      s := faults.Strike();
      if s == Fine { visible, tmp := tmp, None; }
    }

    method SyncDirectory() returns (s: Status)
      modifies this`durable, faults
      ensures Charged(s, old(faults.errors), old(faults.deaths), faults.errors, faults.deaths)
      ensures s == Fine ==> durable == visible
      ensures s != Fine ==> durable == old(durable)
    {
      s := faults.Strike();
      if s == Fine { durable := visible; }
    }

    /** `write_err_and_cleanup_tmp`: the removal is best effort. */
    method CleanupTmp(s0: Status) returns (s: Status)
      modifies this`tmp, faults
      ensures s0 != Failed ==> s == s0 && tmp == old(tmp)
      ensures s0 != Failed ==> faults.errors == old(faults.errors) && faults.deaths == old(faults.deaths)
      ensures s0 == Failed ==> s == Failed || s == Dead
      ensures faults.errors <= old(faults.errors) && faults.deaths <= old(faults.deaths)
      ensures s0 == Failed && s == Dead ==> faults.deaths < old(faults.deaths)
    {
      s := s0;
      if s == Failed {
        var removed := SetTmp(None);
        if removed == Dead { s := Dead; }
      }
    }

    /**
    Whatever happens the target stays whole: it is what it was, or the new
    contents, and success means the new contents are there to stay. Nothing but a
    failing operation makes it fail.
    */
    method Write(contents: T) returns (s: Status)
      requires Valid()
      modifies this, faults
      ensures Valid()
      ensures Charged(s, old(faults.errors), old(faults.deaths), faults.errors, faults.deaths)
      ensures s == Fine ==> Read() == Some(contents) && durable == visible && tmp == None
      ensures s != Fine ==> visible == old(visible) || visible == Some(Whole(contents, true))
      ensures s != Fine ==> durable == old(durable)
    {
      s := SetTmp(None);
      if s != Fine { return; }
      s := SetTmp(Some(Torn));
      if s != Fine { return; }
      s := SetTmp(Some(Whole(contents, false)));
      s := CleanupTmp(s);
      if s != Fine { return; }
      s := SetTmp(Some(Whole(contents, true)));
      s := CleanupTmp(s);
      if s != Fine { return; }
      s := Rename();
      s := CleanupTmp(s);
      if s != Fine { return; }
      s := SyncDirectory();
    }

    /** A stale temporary file is never promoted. */
    method Recover() returns (s: Status)
      requires Valid()
      modifies this`tmp, faults
      ensures Valid() && visible == old(visible) && durable == old(durable)
      ensures Charged(s, old(faults.errors), old(faults.deaths), faults.errors, faults.deaths)
      ensures s == Fine ==> tmp == None
    {
      s := SetTmp(None);
    }

    method Remove() returns (s: Status)
      requires Valid()
      modifies this`visible, this`durable, faults
      ensures Valid()
      ensures Charged(s, old(faults.errors), old(faults.deaths), faults.errors, faults.deaths)
      ensures s == Fine ==> visible == None
      ensures s == Failed ==> visible == old(visible) || visible == None
      ensures s == Dead ==> visible == old(visible)
    {
      s := faults.Strike();
      if s == Fine { visible := None; }
      else if s == Failed {
        if * { visible := None; }
      }
    }

    /** Power returns: entries never synced to the directory may be the old ones. */
    method PowerLoss()
      requires Valid()
      modifies this
      ensures Valid()
      ensures visible == old(visible) || visible == old(durable)
      ensures durable == visible
    {
      if * { visible := durable; }
      durable := visible;
      if * { tmp := if tmp.Some? then Some(Torn) else None; }
    }
  }

  /** Contents a reader may see: what was there first, or what some writer wrote whole. */
  ghost predicate OneOf<T(!new)>(seen: Option<T>, first: Option<T>, writes: seq<T>) {
    seen == first || (seen.Some? && seen.value in writes)
  }

  /**
  Writers in the order they take the lock.  Each may fail or die, and power may
  be lost in between.  The target is always one writer's complete contents, and
  from the last successful write on it is that write or a later one.
  */
  method WriteInLockOrder<T(==,!new)>(file: AtomicFile<T>, writes: seq<T>) returns (lastOk: int)
    requires file.Valid() && file.durable == file.visible
    modifies file, file.faults
    ensures file.Valid()
    ensures -1 <= lastOk < |writes|
    ensures file.faults.Left(old(file.faults.errors), old(file.faults.deaths)) ==> lastOk == |writes| - 1
    ensures lastOk < 0 ==> OneOf(file.Read(), old(file.Read()), writes)
    ensures lastOk >= 0 ==> file.Read().Some? && file.Read().value in writes[lastOk..]
  {
    lastOk := -1;
    ghost var first := file.Read();
    for i := 0 to |writes|
      invariant file.Valid() && -1 <= lastOk < i
      invariant file.faults.errors <= old(file.faults.errors) && file.faults.deaths <= old(file.faults.deaths)
      invariant file.faults.Left(old(file.faults.errors), old(file.faults.deaths)) ==> lastOk == i - 1
      invariant lastOk < 0 ==> OneOf(file.Read(), first, writes[..i]) && OneOf(Held(file.durable), first, writes[..i])
      invariant lastOk >= 0 ==> Among(file.Read(), writes[lastOk..i]) && Among(Held(file.durable), writes[lastOk..i])
    {
      assert writes[..i + 1] == writes[..i] + [writes[i]];
      if lastOk >= 0 { assert writes[lastOk..i + 1] == writes[lastOk..i] + [writes[i]]; }
      var s := file.Write(writes[i]);
      if s == Fine {
        lastOk := i;
        assert writes[i..i + 1] == [writes[i]];
      }
      if * { file.PowerLoss(); }
    }
    assert writes[..|writes|] == writes;
    if lastOk >= 0 { assert writes[lastOk..|writes|] == writes[lastOk..]; }
  }

  function Held<T>(c: Option<Content<T>>): Option<T> {
    if c.Some? && c.value.Whole? then Some(c.value.value) else None
  }

  ghost predicate Among<T(!new)>(seen: Option<T>, writes: seq<T>) {
    seen.Some? && seen.value in writes
  }
}
