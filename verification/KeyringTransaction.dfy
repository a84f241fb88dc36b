/**
The transaction as it is written: an in-memory journal updated in place, loops
over its changes, early returns.  Every method returns, as ghost evidence, the
outcomes its durable operations had, and promises that the protocol machine run
on those outcomes reaches the very same durable state and verdict, and that each
error and each death among them is one that an operation of the host had.
*/
module KeyringTransaction {
  import opened Common
  import opened AuthJournal
  import opened JournalMachine
  import opened SensitiveFile
  import CrashAtomicity
  import opened Undisturbed

  /** The outcomes a durable operation's result stands for. */
  ghost function Took(s: Status, applied: bool): seq<Outcome> {
    match s
    case Fine => [Done]
    case Failed => [Error(applied)]
    case Dead => if applied then [Done, Crash] else [Crash]
  }

  lemma Tally(os: seq<Outcome>, o: Outcome)
    ensures Errors(os + [o]) == Errors(os) + if o.Error? then 1 else 0
    ensures Deaths(os + [o]) == Deaths(os) + if o.Crash? then 1 else 0
  {
    assert multiset(os + [o]) == multiset(os) + multiset{o};
  }

  lemma TallyTook(os: seq<Outcome>, s: Status, applied: bool)
    ensures Errors(os + Took(s, applied)) == Errors(os) + if s == Failed then 1 else 0
    ensures Deaths(os + Took(s, applied)) == Deaths(os) + if s == Dead then 1 else 0
  {
    if s == Dead && applied {
      Tally(os, Done);
      Tally(os + [Done], Crash);
      assert os + Took(s, applied) == os + [Done] + [Crash];
    } else {
      Tally(os, Took(s, applied)[0]);
    }
  }

  lemma TallyMore(os: seq<Outcome>, more: seq<Outcome>)
    requires os <= more
    ensures Errors(os) <= Errors(more) && Deaths(os) <= Deaths(more)
  {
    assert more == os + more[|os|..];
    assert multiset(more) == multiset(os) + multiset(more[|os|..]);
  }

  lemma Extend(s0: State, os: seq<Outcome>, took: seq<Outcome>)
    requires 0 < |took| <= 2
    ensures var s := Run(s0, os);
            Run(s0, os + took) == if |took| == 1 then Step(s, took[0]) else Step(Step(s, took[0]), took[1])
  {
    CrashAtomicity.RunSplit(s0, os, took);
    var s := Run(s0, os);
    assert Run(s, took) == Run(Step(s, took[0]), took[1..]);
    if |took| == 2 {
      assert took[1..][1..] == [];
      assert Run(Step(s, took[0]), took[1..]) == Run(Step(Step(s, took[0]), took[1]), []);
    }
  }

  /** The OS keyring, the journal file and the profile file of one profile. */
  class Host {
    const faults: Faults
    var keyring: Keyring
    const journalFile: AtomicFile<Journal>
    const profileFile: AtomicFile<string>

    ghost predicate Valid()
      reads this, journalFile, profileFile
    {
      && journalFile.Valid() && profileFile.Valid() && journalFile as object != profileFile as object
      && journalFile.faults == faults && profileFile.faults == faults
    }

    /** Nothing has failed since this many errors and deaths were left. */
    ghost predicate Unharmed(errors: nat, deaths: nat)
      reads faults
    {
      faults.Left(errors, deaths)
    }

    /** The errors and deaths in `os` and those still to come are no more than these. */
    ghost predicate Paid(os: seq<Outcome>, errors: nat, deaths: nat)
      reads faults
    {
      Errors(os) + faults.errors <= errors && Deaths(os) + faults.deaths <= deaths
    }

    function Durable(): (d: Durable)
      reads this, journalFile, profileFile
    {
      AuthJournal.Durable(keyring, journalFile.Read(), profileFile.Read())
    }

    constructor (keyring: Keyring, journal: Option<Journal>, profile: Option<string>, faults: Faults)
      ensures this.faults == faults
      ensures Valid() && Durable() == AuthJournal.Durable(keyring, journal, profile)
      ensures fresh(this) && fresh(journalFile) && fresh(profileFile)
    {
      this.faults := faults;
      this.keyring := keyring;
      journalFile := new AtomicFile(journal, faults);
      profileFile := new AtomicFile(profile, faults);
    }

    method SetKeyring(next: Keyring) returns (s: Status, ghost applied: bool)
      requires Valid()
      modifies this`keyring, faults
      ensures Charged(s, old(faults.errors), old(faults.deaths), faults.errors, faults.deaths)
      ensures Valid() && (s == Fine ==> applied) && (s == Dead ==> !applied)
      ensures Durable() == if applied then old(Durable()).(keyring := next) else old(Durable())
    {
      s := faults.Strike();
      applied := s == Fine;
      if s == Fine { keyring := next; }
      else if s == Failed {
        if * { keyring, applied := next, true; }
      }
    }

    method StoreSecret(slot: Slot, secret: string) returns (s: Status, ghost applied: bool)
      requires Valid()
      modifies this`keyring, faults
      ensures Charged(s, old(faults.errors), old(faults.deaths), faults.errors, faults.deaths)
      ensures Valid() && (s == Fine ==> applied) && (s == Dead ==> !applied)
      ensures Durable() == if applied then old(Durable()).(keyring := old(keyring)[slot := secret]) else old(Durable())
    {
      s, applied := SetKeyring(keyring[slot := secret]);
    }

    method DeleteSecret(slot: Slot) returns (s: Status, ghost applied: bool)
      requires Valid()
      modifies this`keyring, faults
      ensures Charged(s, old(faults.errors), old(faults.deaths), faults.errors, faults.deaths)
      ensures Valid() && (s == Fine ==> applied) && (s == Dead ==> !applied)
      ensures Durable() == if applied then old(Durable()).(keyring := old(keyring) - {slot}) else old(Durable())
    {
      s, applied := SetKeyring(keyring - {slot});
    }

    /** A read may be denied even though the entry is there. */
    method ReadJournal() returns (s: Status, contents: Option<Journal>)
      requires Valid()
      modifies faults
      ensures Charged(s, old(faults.errors), old(faults.deaths), faults.errors, faults.deaths)
      ensures s == Fine ==> contents == journalFile.Read()
    {
      s := faults.Strike();
      contents := journalFile.Read();
    }

    method ReadProfile() returns (s: Status, contents: Option<string>)
      requires Valid()
      modifies faults
      ensures Charged(s, old(faults.errors), old(faults.deaths), faults.errors, faults.deaths)
      ensures s == Fine ==> contents == profileFile.Read()
    {
      s := faults.Strike();
      contents := profileFile.Read();
    }

    method Resolve(slot: Slot) returns (s: Status, value: Option<string>)
      requires Valid()
      modifies faults
      ensures Charged(s, old(faults.errors), old(faults.deaths), faults.errors, faults.deaths)
      ensures s == Fine ==> value == if slot in keyring then Some(keyring[slot]) else None
    {
      s := faults.Strike();
      value := if s == Fine && slot in keyring then Some(keyring[slot]) else None;
    }

    method Persist(journal: Journal) returns (s: Status, ghost applied: bool)
      requires Valid()
      modifies journalFile, faults
      ensures Charged(s, old(faults.errors), old(faults.deaths), faults.errors, faults.deaths)
      ensures Valid() && (s == Fine ==> applied)
      ensures Durable() == if applied then old(Durable()).(journal := Some(journal)) else old(Durable())
    {
      s := journalFile.Write(journal);
      applied := s == Fine || journalFile.visible != old(journalFile.visible);
    }

    method RemoveJournal() returns (s: Status, ghost applied: bool)
      requires Valid()
      modifies journalFile, faults
      ensures Charged(s, old(faults.errors), old(faults.deaths), faults.errors, faults.deaths)
      ensures Valid() && (s == Fine ==> applied) && (s == Dead ==> !applied)
      ensures Durable() == if applied then old(Durable()).(journal := None) else old(Durable())
    {
      s := journalFile.Remove();
      applied := s == Fine || journalFile.visible != old(journalFile.visible);
    }

    method WriteProfile(body: string) returns (s: Status, ghost applied: bool)
      requires Valid()
      modifies profileFile, faults
      ensures Charged(s, old(faults.errors), old(faults.deaths), faults.errors, faults.deaths)
      ensures Valid() && (s == Fine ==> applied)
      ensures Durable() == if applied then old(Durable()).(profile := Some(body)) else old(Durable())
    {
      s := profileFile.Write(body);
      applied := s == Fine || profileFile.visible != old(profileFile.visible);
    }

    /** `restore_keyring_changes`, last change first. */
    method RestoreChanges(j: Journal, ghost tx: Option<Tx>, ghost s0: State, ghost os0: seq<Outcome>)
      returns (r: Verdict, ghost os: seq<Outcome>)
      requires Valid() && (tx.Some? ==> tx.value.journal == j)
      requires Run(s0, os0) == State(Durable(), UndoPc(tx, j, |j.changes|))
      modifies this`keyring, faults
      ensures Valid() && !r.RolledBack? && os0 <= os
      ensures Paid(os, Errors(os0) + old(faults.errors), Deaths(os0) + old(faults.deaths))
      ensures Run(s0, os) == State(Durable(), if r.Success? then UndoPc(tx, j, 0) else Stopped(r))
    {
      var i := |j.changes|;
      os := os0;
      while i > 0
        invariant 0 <= i <= |j.changes| && Valid() && os0 <= os
        invariant Run(s0, os) == State(Durable(), UndoPc(tx, j, i))
        invariant Paid(os, Errors(os0) + old(faults.errors), Deaths(os0) + old(faults.deaths))
      {
        ghost var d := Durable();
        var s;
        ghost var applied;
        r, s, applied := RestoreChange(j.txn, j.changes[i - 1]);
        if r == MissingBackup {
          MissingBackupRun(s0, os, d, tx, j, i);
          Tally(os, Done);
          os := os + [Done];
          return;
        }
        RestoreRun(s0, os, d, tx, j, i, s, applied);
        TallyTook(os, s, applied);
        os := os + Took(s, applied);
        if s != Fine { return; }
        i := i - 1;
      }
      r := Success;
    }

    method RestoreChange(txn: nat, c: Change) returns (r: Verdict, s: Status, ghost applied: bool)
      requires Valid()
      modifies this`keyring, faults
      ensures Charged(s, old(faults.errors), old(faults.deaths), faults.errors, faults.deaths)
      ensures Valid() && (s == Fine ==> applied) && (s == Dead ==> !applied)
      ensures r == MissingBackup ==> RestoreOne(old(keyring), txn, c).None? && Durable() == old(Durable())
      ensures r != MissingBackup ==> r == (if s == Fine then Success else Blame(s))
      ensures r != MissingBackup && applied ==> RestoreOne(old(keyring), txn, c).Some?
      ensures r != MissingBackup ==> Durable() == if applied
          then old(Durable()).(keyring := RestoreOne(old(keyring), txn, c).value) else old(Durable())
    {
      s, applied := Fine, true;
      if c.backedUp {
        var backup;
        s, backup := Resolve(Backup(txn, c.account));
        if s != Fine {
          applied := false;
        } else if backup.Some? {
          s, applied := StoreSecret(Real(c.account), backup.value);
        } else if c.backupReady {
          r := MissingBackup;
          return;
        }
      } else {
        s, applied := DeleteSecret(Real(c.account));
      }
      r := if s == Fine then Success else Blame(s);
    }

    /** `cleanup_backup_accounts`; the commit path repeats the same loop. */
    method CleanupBackups(j: Journal, ghost tx: Option<Tx>, ghost s0: State, ghost os0: seq<Outcome>)
      returns (r: Verdict, ghost os: seq<Outcome>)
      requires Valid() && (tx.Some? ==> tx.value.journal == j)
      requires Run(s0, os0) == State(Durable(), CleanPc(tx, j, 0))
      modifies this`keyring, faults
      ensures Valid() && !r.RolledBack? && !r.MissingBackup? && os0 <= os
      ensures Paid(os, Errors(os0) + old(faults.errors), Deaths(os0) + old(faults.deaths))
      ensures Run(s0, os) == State(Durable(), if r.Success? then CleanPc(tx, j, |j.changes|) else Stopped(r))
    {
      os := os0;
      for i := 0 to |j.changes|
        invariant Valid() && os0 <= os && Run(s0, os) == State(Durable(), CleanPc(tx, j, i))
        invariant Paid(os, Errors(os0) + old(faults.errors), Deaths(os0) + old(faults.deaths))
      {
        ghost var d := Durable();
        var c := j.changes[i];
        var s: Status := Fine;
        ghost var applied := true;
        if c.backedUp {
          s, applied := DeleteSecret(Backup(j.txn, c.account));
        }
        CleanRun(s0, os, d, tx, j, i, s, applied);
        TallyTook(os, s, applied);
        os := os + Took(s, applied);
        if s != Fine { return Blame(s), os; }
      }
      r := Success;
    }
  }

  function Blame(s: Status): Verdict {
    if s.Dead? then Crashed else Failure
  }

  /** Where the restore loop stands: in recovery, or in the rollback of `tx`. */
  ghost function UndoPc(tx: Option<Tx>, j: Journal, i: nat): Pc {
    if tx.Some? then Undo(tx.value, i) else RecRestore(j, i)
  }

  /** Where a cleanup loop stands: in recovery, after a rollback, or after a commit. */
  ghost function CleanPc(tx: Option<Tx>, j: Journal, i: nat): Pc {
    if tx.None? then RecClean(j, i)
    else if j.rollbackRestored then UndoClean(tx.value, i)
    else CommitClean(tx.value, i)
  }

  lemma RestoreRun(
    s0: State, os: seq<Outcome>, d: AuthJournal.Durable, tx: Option<Tx>, j: Journal, i: nat, s: Status, applied: bool)
    requires 0 < i <= |j.changes| && (tx.Some? ==> tx.value.journal == j)
    requires Run(s0, os) == State(d, UndoPc(tx, j, i))
    requires (s == Fine ==> applied) && (s == Dead ==> !applied)
    requires applied ==> RestoreOne(d.keyring, j.txn, j.changes[i - 1]).Some?
    ensures Run(s0, os + Took(s, applied)) == State(
              if applied then d.(keyring := RestoreOne(d.keyring, j.txn, j.changes[i - 1]).value) else d,
              if s == Fine then UndoPc(tx, j, i - 1) else Stopped(Blame(s)))
  {
    Extend(s0, os, Took(s, applied));
  }

  lemma MissingBackupRun(
    s0: State, os: seq<Outcome>, d: AuthJournal.Durable, tx: Option<Tx>, j: Journal, i: nat)
    requires 0 < i <= |j.changes| && (tx.Some? ==> tx.value.journal == j)
    requires Run(s0, os) == State(d, UndoPc(tx, j, i))
    requires RestoreOne(d.keyring, j.txn, j.changes[i - 1]).None?
    ensures Run(s0, os + [Done]) == State(d, Stopped(MissingBackup))
  {
    Extend(s0, os, [Done]);
  }

  lemma CleanRun(
    s0: State, os: seq<Outcome>, d: AuthJournal.Durable, tx: Option<Tx>, j: Journal, i: nat, s: Status, applied: bool)
    requires i < |j.changes| && (tx.Some? ==> tx.value.journal == j)
    requires Run(s0, os) == State(d, CleanPc(tx, j, i))
    requires (s == Fine ==> applied) && (s == Dead ==> !applied)
    ensures Run(s0, os + Took(s, applied)) == State(
              if applied then d.(keyring := DropBackup(d.keyring, j.txn, j.changes[i])) else d,
              if s == Fine then CleanPc(tx, j, i + 1) else Stopped(Blame(s)))
  {
    Extend(s0, os, Took(s, applied));
  }

  /** A step that does no I/O, or whose I/O took effect. */
  lemma StepRun(s0: State, os: seq<Outcome>, s: State)
    requires Run(s0, os) == s
    ensures Run(s0, os + [Done]) == Step(s, Done)
  {
    Extend(s0, os, [Done]);
  }

  /** Persisting the restored mark, or removing the journal, in recovery. */
  lemma MarkRun(s0: State, os: seq<Outcome>, d: AuthJournal.Durable, j: Journal, s: Status, applied: bool)
    requires Run(s0, os) == State(d, RecRestore(j, 0)) && (s == Fine ==> applied)
    ensures var j' := j.(rollbackRestored := true);
            Run(s0, os + [Done] + Took(s, applied)) == State(
              if applied then d.(journal := Some(j')) else d,
              if s == Fine then RecClean(j', 0) else Stopped(Blame(s)))
  {
    StepRun(s0, os, State(d, RecRestore(j, 0)));
    Extend(s0, os + [Done], Took(s, applied));
  }

  lemma RemoveRun(s0: State, os: seq<Outcome>, d: AuthJournal.Durable, j: Journal, s: Status, applied: bool)
    requires Run(s0, os) == State(d, RecClean(j, |j.changes|))
    requires (s == Fine ==> applied) && (s == Dead ==> !applied)
    ensures Run(s0, os + [Done] + Took(s, applied)) == State(
              if applied then d.(journal := None) else d,
              Stopped(if s == Fine then Success else Blame(s)))
  {
    StepRun(s0, os, State(d, RecClean(j, |j.changes|)));
    Extend(s0, os + [Done], Took(s, applied));
  }

  /**
  Whether the profile's digest is the journal's target. The profile is read only
  if there is a target, and one that cannot be read does not match.
  */
  method JudgeCommitted(host: Host, j: Journal, ghost s0: State, ghost os0: seq<Outcome>)
    returns (committed: bool, r: Verdict, ghost os: seq<Outcome>)
    requires host.Valid() && Run(s0, os0) == State(host.Durable(), RecProfile(j)) && host.Durable().journal == Some(j)
    modifies host.faults
    ensures host.Paid(os, Errors(os0) + old(host.faults.errors), Deaths(os0) + old(host.faults.deaths))
    ensures r == Success || r == Crashed
    ensures |os| == |os0| + 1 && os0 <= os
    ensures Run(s0, os) == State(host.Durable(),
              if r == Crashed then Stopped(Crashed)
              else if committed || j.rollbackRestored then RecClean(j, 0) else RecRestore(j, |j.changes|))
  {
    if j.target.None? {
      Extend(s0, os0, [Done]);
      Tally(os0, Done);
      return false, Success, os0 + [Done];
    }
    var seen, contents := host.ReadProfile();
    if seen == Dead {
      Extend(s0, os0, [Crash]);
      Tally(os0, Crash);
      return false, Crashed, os0 + [Crash];
    }
    committed := seen == Fine && contents.Some? && j.target.value == Sha256(contents.value);
    r := Success;
    os := os0 + Took(seen, false);
    Extend(s0, os0, Took(seen, false));
    TallyTook(os0, seen, false);
  }

  /** Recovery stops at once, because it cannot read. */
  lemma CannotRead(d: AuthJournal.Durable, s: Status)
    requires s != Fine
    ensures Run(State(d, RecRead), Took(s, false)) == State(d, Stopped(Blame(s)))
    ensures Errors(Took(s, false)) == (if s == Failed then 1 else 0)
    ensures Deaths(Took(s, false)) == (if s == Dead then 1 else 0)
  {
    Extend(State(d, RecRead), [], Took(s, false));
    TallyTook([], s, false);
    assert [] + Took(s, false) == Took(s, false);
  }

  lemma CanRead(d: AuthJournal.Durable)
    ensures Run(State(d, RecRead), [Done]) == Step(State(d, RecRead), Done) && Errors([Done]) == Deaths([Done]) == 0
  {
    StepRun(State(d, RecRead), [], State(d, RecRead));
    Tally([], Done);
    assert [] + [Done] == [Done];
  }

  /** `recover_keyring_transaction_locked`. */
  method RecoverLocked(host: Host) returns (r: Verdict, ghost os: seq<Outcome>)
    requires host.Valid()
    modifies host`keyring, host.journalFile, host.faults
    ensures host.Valid() && !r.RolledBack?
    ensures host.Paid(os, old(host.faults.errors), old(host.faults.deaths))
    ensures Run(State(old(host.Durable()), RecRead), os) == State(host.Durable(), Stopped(r))
  {
    ghost var d := host.Durable();
    var tmp := host.journalFile.Recover();
    if tmp != Fine {
      CannotRead(d, tmp);
      return Blame(tmp), Took(tmp, false);
    }
    var read, stored := host.ReadJournal();
    if read != Fine {
      CannotRead(d, read);
      return Blame(read), Took(read, false);
    }
    CanRead(d);
    os := [Done];
    if stored.None? { return Success, os; }
    r, os := RecoverJournal(host, stored.value, State(d, RecRead), os);
  }

  /** The journal has been read: what it asks for. */
  method RecoverJournal(host: Host, found: Journal, ghost s0: State, ghost os0: seq<Outcome>)
    returns (r: Verdict, ghost os: seq<Outcome>)
    requires host.Valid() && host.Durable().journal == Some(found)
    requires Run(s0, os0) == State(host.Durable(), RecProfile(found))
    modifies host`keyring, host.journalFile, host.faults
    ensures host.Valid() && !r.RolledBack?
    ensures host.Paid(os, Errors(os0) + old(host.faults.errors), Deaths(os0) + old(host.faults.deaths))
    ensures Run(s0, os) == State(host.Durable(), Stopped(r))
  {
    var j := found;
    var committed: bool;
    committed, r, os := JudgeCommitted(host, j, s0, os0);
    if r != Success { return; }
    if !committed && !j.rollbackRestored {
      r, os := host.RestoreChanges(j, None, s0, os);
      if r != Success { return; }
      var s;
      s, os := MarkRestored(host, j, s0, os);
      if s != Fine { return Blame(s), os; }
      j := j.(rollbackRestored := true);
    }
    r, os := FinishRecovery(host, j, s0, os);
  }

  method MarkRestored(host: Host, j: Journal, ghost s0: State, ghost os0: seq<Outcome>)
    returns (s: Status, ghost os: seq<Outcome>)
    requires host.Valid() && Run(s0, os0) == State(host.Durable(), RecRestore(j, 0))
    modifies host.journalFile, host.faults
    ensures host.Valid()
    ensures host.Paid(os, Errors(os0) + old(host.faults.errors), Deaths(os0) + old(host.faults.deaths))
    ensures Run(s0, os) == State(host.Durable(),
              if s == Fine then RecClean(j.(rollbackRestored := true), 0) else Stopped(Blame(s)))
  {
    ghost var d := host.Durable();
    ghost var applied;
    s, applied := host.Persist(j.(rollbackRestored := true));
    MarkRun(s0, os0, d, j, s, applied);
    Tally(os0, Done);
    TallyTook(os0 + [Done], s, applied);
    os := os0 + [Done] + Took(s, applied);
  }

  method FinishRecovery(host: Host, j: Journal, ghost s0: State, ghost os0: seq<Outcome>)
    returns (r: Verdict, ghost os: seq<Outcome>)
    requires host.Valid() && Run(s0, os0) == State(host.Durable(), RecClean(j, 0))
    modifies host`keyring, host.journalFile, host.faults
    ensures host.Valid() && !r.RolledBack?
    ensures host.Paid(os, Errors(os0) + old(host.faults.errors), Deaths(os0) + old(host.faults.deaths))
    ensures Run(s0, os) == State(host.Durable(), Stopped(r))
  {
    r, os := host.CleanupBackups(j, None, s0, os0);
    if r != Success { return; }
    ghost var d := host.Durable();
    var s;
    ghost var applied;
    s, applied := host.RemoveJournal();
    RemoveRun(s0, os, d, j, s, applied);
    Tally(os, Done);
    TallyTook(os + [Done], s, applied);
    os := os + [Done] + Took(s, applied);
    r := if s == Fine then Success else Blame(s);
  }

  // ------------------------------------------------------------ the writer

  /** Success goes on, an error starts the rollback, a death stops everything. */
  ghost function After(s: Status, next: Pc, tx: Tx): Pc {
    match s
    case Fine => next
    case Failed => StartUndo(tx)
    case Dead => Stopped(Crashed)
  }

  lemma PersistChangeRun(
    s0: State, os: seq<Outcome>, d: AuthJournal.Durable, tx: Tx, previous: Option<string>, s: Status, applied: bool)
    requires Run(s0, os) == State(d, PersistChange(tx, previous)) && (s == Fine ==> applied)
    ensures Run(s0, os + Took(s, applied)) == State(
              if applied then d.(journal := Some(tx.journal)) else d,
              After(s, if previous.Some? then StoreBackup(tx, previous.value) else Apply(tx), tx))
  {
    Extend(s0, os, Took(s, applied));
  }

  lemma StoreBackupRun(
    s0: State, os: seq<Outcome>, d: AuthJournal.Durable, tx: Tx, secret: string, s: Status, applied: bool)
    requires Run(s0, os) == State(d, StoreBackup(tx, secret)) && tx.plan != []
    requires (s == Fine ==> applied) && (s == Dead ==> !applied)
    ensures Run(s0, os + Took(s, applied)) == State(
              if applied then d.(keyring := d.keyring[Backup(tx.journal.txn, tx.plan[0].account) := secret]) else d,
              After(s, PersistReady(tx.(journal := MarkLastReady(tx.journal))), tx))
  {
    Extend(s0, os, Took(s, applied));
  }

  lemma PersistReadyRun(s0: State, os: seq<Outcome>, d: AuthJournal.Durable, tx: Tx, s: Status, applied: bool)
    requires Run(s0, os) == State(d, PersistReady(tx)) && (s == Fine ==> applied)
    ensures Run(s0, os + Took(s, applied)) == State(
              if applied then d.(journal := Some(tx.journal)) else d, After(s, Apply(tx), tx))
  {
    Extend(s0, os, Took(s, applied));
  }

  lemma ApplyRun(s0: State, os: seq<Outcome>, d: AuthJournal.Durable, tx: Tx, s: Status, applied: bool)
    requires Run(s0, os) == State(d, Apply(tx)) && tx.plan != []
    requires (s == Fine ==> applied) && (s == Dead ==> !applied)
    ensures Run(s0, os + Took(s, applied)) == State(
              if applied then d.(keyring := ApplyOp(d.keyring, tx.plan[0])) else d,
              After(s, Next(tx.(plan := tx.plan[1..])), tx))
  {
    Extend(s0, os, Took(s, applied));
  }

  lemma TargetRun(s0: State, os: seq<Outcome>, d: AuthJournal.Durable, tx: Tx, s: Status, applied: bool)
    requires Run(s0, os) == State(d, PersistTarget(tx)) && (s == Fine ==> applied)
    requires tx.journal.changes != []
    ensures var tx' := tx.(journal := tx.journal.(target := Some(Sha256(tx.body))));
            Run(s0, os + Took(s, applied)) == State(
              if applied then d.(journal := Some(tx'.journal)) else d, After(s, WriteProfile(tx'), tx'))
  {
    Extend(s0, os, Took(s, applied));
  }

  lemma WriteRun(s0: State, os: seq<Outcome>, d: AuthJournal.Durable, tx: Tx, s: Status, applied: bool)
    requires Run(s0, os) == State(d, WriteProfile(tx)) && (s == Fine ==> applied)
    ensures Run(s0, os + Took(s, applied)) == State(
              if applied then d.(profile := Some(tx.body)) else d, After(s, CommitClean(tx, 0), tx))
  {
    Extend(s0, os, Took(s, applied));
  }

  lemma CommitRemoveRun(s0: State, os: seq<Outcome>, d: AuthJournal.Durable, tx: Tx, s: Status, applied: bool)
    requires Run(s0, os) == State(d, CommitClean(tx, |tx.journal.changes|))
    requires (s == Fine ==> applied) && (s == Dead ==> !applied)
    ensures Run(s0, os + [Done] + Took(s, applied)) == State(
              if applied then d.(journal := None) else d,
              Stopped(if s == Fine then Success else Blame(s)))
  {
    StepRun(s0, os, State(d, CommitClean(tx, |tx.journal.changes|)));
    Extend(s0, os + [Done], Took(s, applied));
  }

  lemma UndoMarkRun(s0: State, os: seq<Outcome>, d: AuthJournal.Durable, tx: Tx, s: Status, applied: bool)
    requires Run(s0, os) == State(d, Undo(tx, 0)) && (s == Fine ==> applied)
    ensures var tx' := tx.(journal := tx.journal.(rollbackRestored := true));
            Run(s0, os + [Done] + Took(s, applied)) == State(
              if applied then d.(journal := Some(tx'.journal)) else d,
              if s == Fine then UndoClean(tx', 0) else Stopped(Blame(s)))
  {
    StepRun(s0, os, State(d, Undo(tx, 0)));
    Extend(s0, os + [Done], Took(s, applied));
  }

  lemma UndoRemoveRun(s0: State, os: seq<Outcome>, d: AuthJournal.Durable, tx: Tx, s: Status, applied: bool)
    requires Run(s0, os) == State(d, UndoClean(tx, |tx.journal.changes|))
    requires (s == Fine ==> applied) && (s == Dead ==> !applied)
    ensures Run(s0, os + [Done] + Took(s, applied)) == State(
              if applied then d.(journal := None) else d,
              Stopped(if s == Fine then RolledBack else Blame(s)))
  {
    StepRun(s0, os, State(d, UndoClean(tx, |tx.journal.changes|)));
    Extend(s0, os + [Done], Took(s, applied));
  }

  /** `KeyringTransaction`: the journal lives in memory and is persisted as it grows. */
  class Transaction {
    const host: Host
    var journal: Journal

    constructor (host: Host, txn: nat)
      ensures this.host == host && journal == Journal(txn, None, false, [])
    {
      this.host := host;
      journal := Journal(txn, None, false, []);
    }

    method RecordChange(
      account: string, previous: Option<string>, ghost tx: Tx, ghost s0: State, ghost os0: seq<Outcome>)
      returns (s: Status, ghost os: seq<Outcome>)
      requires host.Valid() && tx.journal == journal && tx.plan != [] && tx.plan[0].account == account
      requires previous == Lookup(host.keyring, account) && (tx.plan[0].Remove? ==> previous.Some?)
      requires Run(s0, os0) == State(host.Durable(), Next(tx))
      modifies this`journal, host`keyring, host.journalFile, host.faults
      ensures Charged(s, old(host.faults.errors), old(host.faults.deaths), host.faults.errors, host.faults.deaths)
      ensures host.Paid(os, Errors(os0) + old(host.faults.errors), Deaths(os0) + old(host.faults.deaths))
      ensures host.Valid()
      ensures journal.rollbackRestored == old(journal.rollbackRestored)
      ensures Run(s0, os) == State(host.Durable(), After(s, Apply(tx.(journal := journal)), tx.(journal := journal)))
    {
      StepRun(s0, os0, State(host.Durable(), Next(tx)));
      Tally(os0, Done);
      os := os0 + [Done];
      if Touches(journal.changes, account) { return Fine, os; }
      journal := journal.(changes := journal.changes + [Change(account, previous.Some?, previous.None?)]);
      ghost var tx1 := tx.(journal := journal);
      ghost var d := host.Durable();
      ghost var applied;
      s, applied := host.Persist(journal);
      PersistChangeRun(s0, os, d, tx1, previous, s, applied);
      TallyTook(os, s, applied);
      os := os + Took(s, applied);
      if s != Fine || previous.None? { return; }
      d := host.Durable();
      s, applied := host.StoreSecret(Backup(journal.txn, account), previous.value);
      StoreBackupRun(s0, os, d, tx1, previous.value, s, applied);
      TallyTook(os, s, applied);
      os := os + Took(s, applied);
      if s != Fine { return; }
      journal := MarkLastReady(journal);
      tx1 := tx.(journal := journal);
      d := host.Durable();
      s, applied := host.Persist(journal);
      PersistReadyRun(s0, os, d, tx1, s, applied);
      TallyTook(os, s, applied);
      os := os + Took(s, applied);
    }

    method SetTargetDigest(contents: string, ghost tx: Tx, ghost s0: State, ghost os0: seq<Outcome>)
      returns (s: Status, ghost os: seq<Outcome>)
      requires host.Valid() && tx.journal == journal && tx.body == contents
      requires Run(s0, os0) == State(host.Durable(), PersistTarget(tx))
      modifies this`journal, host.journalFile, host.faults
      ensures Charged(s, old(host.faults.errors), old(host.faults.deaths), host.faults.errors, host.faults.deaths)
      ensures host.Paid(os, Errors(os0) + old(host.faults.errors), Deaths(os0) + old(host.faults.deaths))
      ensures host.Valid()
      ensures journal.rollbackRestored == old(journal.rollbackRestored)
      ensures var tx' := tx.(journal := journal);
              Run(s0, os) == State(host.Durable(), After(s, WriteProfile(tx'), tx'))
    {
      os := os0;
      if journal.changes == [] {
        StepRun(s0, os, State(host.Durable(), PersistTarget(tx)));
        Tally(os, Done);
        return Fine, os + [Done];
      }
      journal := journal.(target := Some(Sha256(contents)));
      ghost var d := host.Durable();
      ghost var applied;
      s, applied := host.Persist(journal);
      TargetRun(s0, os, d, tx, s, applied);
      TallyTook(os, s, applied);
      os := os + Took(s, applied);
    }

    method Commit(ghost tx: Tx, ghost s0: State, ghost os0: seq<Outcome>)
      returns (r: Verdict, ghost os: seq<Outcome>)
      requires host.Valid() && tx.journal == journal && !journal.rollbackRestored
      requires Run(s0, os0) == State(host.Durable(), CommitClean(tx, 0))
      modifies host`keyring, host.journalFile, host.faults
      ensures host.Valid()
      ensures host.Paid(os, Errors(os0) + old(host.faults.errors), Deaths(os0) + old(host.faults.deaths))
      ensures Run(s0, os) == State(host.Durable(), Stopped(r))
    {
      r, os := host.CleanupBackups(journal, Some(tx), s0, os0);
      if r != Success { return; }
      ghost var d := host.Durable();
      var s;
      ghost var applied;
      s, applied := host.RemoveJournal();
      CommitRemoveRun(s0, os, d, tx, s, applied);
      Tally(os, Done);
      TallyTook(os + [Done], s, applied);
      os := os + [Done] + Took(s, applied);
      r := if s == Fine then Success else Blame(s);
    }

    /** A `Success` of the restore loop ends here as `RolledBack`. */
    method RollbackAndAbort(ghost tx: Tx, ghost s0: State, ghost os0: seq<Outcome>)
      returns (r: Verdict, ghost os: seq<Outcome>)
      requires host.Valid() && tx.journal == journal
      requires Run(s0, os0) == State(host.Durable(), StartUndo(tx))
      modifies this`journal, host`keyring, host.journalFile, host.faults
      ensures host.Paid(os, Errors(os0) + old(host.faults.errors), Deaths(os0) + old(host.faults.deaths))
      ensures host.Valid() && !r.Success? && os0 <= os
      ensures Run(s0, os) == State(host.Durable(), Stopped(r))
    {
      r, os := host.RestoreChanges(journal, Some(tx), s0, os0);
      if r != Success { return; }
      var s;
      s, os := MarkRolledBack(tx, s0, os);
      if s != Fine { return Blame(s), os; }
      r, os := FinishRollback(tx.(journal := journal), s0, os);
    }

    method MarkRolledBack(ghost tx: Tx, ghost s0: State, ghost os0: seq<Outcome>)
      returns (s: Status, ghost os: seq<Outcome>)
      requires host.Valid() && tx.journal == journal
      requires Run(s0, os0) == State(host.Durable(), Undo(tx, 0))
      modifies this`journal, host.journalFile, host.faults
      ensures host.Valid() && os0 <= os && journal == old(journal).(rollbackRestored := true)
      ensures host.Paid(os, Errors(os0) + old(host.faults.errors), Deaths(os0) + old(host.faults.deaths))
      ensures Run(s0, os) == State(host.Durable(),
                if s == Fine then UndoClean(tx.(journal := journal), 0) else Stopped(Blame(s)))
    {
      ghost var d := host.Durable();
      journal := journal.(rollbackRestored := true);
      ghost var applied;
      s, applied := host.Persist(journal);
      UndoMarkRun(s0, os0, d, tx, s, applied);
      Tally(os0, Done);
      TallyTook(os0 + [Done], s, applied);
      os := os0 + [Done] + Took(s, applied);
    }

    method FinishRollback(ghost tx: Tx, ghost s0: State, ghost os0: seq<Outcome>)
      returns (r: Verdict, ghost os: seq<Outcome>)
      requires host.Valid() && tx.journal == journal && journal.rollbackRestored
      requires Run(s0, os0) == State(host.Durable(), UndoClean(tx, 0))
      modifies host`keyring, host.journalFile, host.faults
      ensures host.Valid() && !r.Success? && os0 <= os
      ensures host.Paid(os, Errors(os0) + old(host.faults.errors), Deaths(os0) + old(host.faults.deaths))
      ensures Run(s0, os) == State(host.Durable(), Stopped(r))
    {
      r, os := host.CleanupBackups(journal, Some(tx), s0, os0);
      if r != Success { return; }
      ghost var d := host.Durable();
      var s;
      ghost var applied;
      s, applied := host.RemoveJournal();
      UndoRemoveRun(s0, os, d, tx, s, applied);
      Tally(os, Done);
      TallyTook(os + [Done], s, applied);
      os := os + [Done] + Took(s, applied);
      r := if s == Fine then RolledBack else Blame(s);
    }

    /** Store or delete the secret, now that the change is on record. */
    method Perform(op: PlanOp, ghost tx: Tx, ghost s0: State, ghost os0: seq<Outcome>)
      returns (s: Status, ghost os: seq<Outcome>)
      requires host.Valid() && tx.journal == journal && tx.plan != [] && tx.plan[0] == op
      requires Run(s0, os0) == State(host.Durable(), Apply(tx))
      modifies host`keyring, host.faults
      ensures Charged(s, old(host.faults.errors), old(host.faults.deaths), host.faults.errors, host.faults.deaths)
      ensures host.Paid(os, Errors(os0) + old(host.faults.errors), Deaths(os0) + old(host.faults.deaths))
      ensures host.Valid()
      ensures Run(s0, os) == State(host.Durable(), After(s, Next(tx.(plan := tx.plan[1..])), tx))
    {
      ghost var d := host.Durable();
      ghost var applied;
      if op.Put? {
        s, applied := host.StoreSecret(Real(op.account), op.secret);
      } else {
        s, applied := host.DeleteSecret(Real(op.account));
      }
      ApplyRun(s0, os0, d, tx, s, applied);
      TallyTook(os0, s, applied);
      os := os0 + Took(s, applied);
    }

    /** One keyring change of a save: read the old value, journal it, then change it. */
    method ChangeSecret(op: PlanOp, ghost tx: Tx, ghost s0: State, ghost os0: seq<Outcome>)
      returns (s: Status, ghost os: seq<Outcome>)
      requires host.Valid() && tx.journal == journal && tx.plan != [] && tx.plan[0] == op
      requires Run(s0, os0) == State(host.Durable(), Next(tx))
      modifies this`journal, host`keyring, host.journalFile, host.faults
      ensures Charged(s, old(host.faults.errors), old(host.faults.deaths), host.faults.errors, host.faults.deaths)
      ensures host.Paid(os, Errors(os0) + old(host.faults.errors), Deaths(os0) + old(host.faults.deaths))
      ensures host.Valid()
      ensures journal.rollbackRestored == old(journal.rollbackRestored)
      ensures var tx' := tx.(journal := journal);
              Run(s0, os) == State(host.Durable(), After(s, Next(tx'.(plan := tx.plan[1..])), tx'))
    {
      var previous;
      s, previous := host.Resolve(Real(op.account));
      if s != Fine {
        os := os0 + Took(s, false);
        Extend(s0, os0, Took(s, false));
        TallyTook(os0, s, false);
        return;
      }
      if op.Remove? && previous.None? {
        StepRun(s0, os0, State(host.Durable(), Next(tx)));
        Tally(os0, Done);
        return Fine, os0 + [Done];
      }
      s, os := RecordChange(op.account, previous, tx, s0, os0);
      if s != Fine { return; }
      s, os := Perform(op, tx.(journal := journal), s0, os);
    }
  }

  /**
  `write_config_exact` from the end of its recovery on: change the secrets,
  mark the target, write the profile, commit; on any error roll back.
  */
  method SaveLocked(host: Host, txn: nat, plan: seq<PlanOp>, body: string, renders: bool)
    returns (r: Verdict, ghost os: seq<Outcome>)
    requires host.Valid()
    modifies host`keyring, host.journalFile, host.profileFile, host.faults
    ensures host.Valid()
    ensures host.Paid(os, old(host.faults.errors) + (if renders then 0 else 1), old(host.faults.deaths))
    ensures host.faults.errors <= old(host.faults.errors) && host.faults.deaths <= old(host.faults.deaths)
    ensures var d := old(host.Durable());
            var b := State(d, BeginWrite(d, txn, plan, body));
            && Run(b, os) == State(host.Durable(), Stopped(r))
            && (!renders && host.Unharmed(old(host.faults.errors), old(host.faults.deaths)) ==> FailsAtRender(b, os))
  {
    var t := new Transaction(host, txn);
    ghost var s0 := State(host.Durable(), BeginWrite(host.Durable(), txn, plan, body));
    ghost var tx := s0.pc.tx;
    os := [];
    var s := Fine;
    var i := 0;
    while i < |plan|
      invariant 0 <= i <= |plan| && host.Valid() && s == Fine && t.host == host && fresh(t)
      invariant tx.journal == t.journal && tx.body == body && tx.plan == plan[i..]
      invariant !tx.journal.rollbackRestored
      invariant Run(s0, os) == State(host.Durable(), Next(tx))
      invariant host.Paid(os, old(host.faults.errors), old(host.faults.deaths))
    {
      s, os := t.ChangeSecret(plan[i], tx, s0, os);
      tx := tx.(journal := t.journal);
      if s == Dead { return Crashed, os; }
      if s == Failed {
        r, os := t.RollbackAndAbort(tx, s0, os);
        return;
      }
      tx := tx.(plan := tx.plan[1..]);
      i := i + 1;
    }
    StepRun(s0, os, State(host.Durable(), Next(tx)));
    Tally(os, Done);
    os := os + [Done];
    ghost var recorded := os;
    r, os := FinishSave(t, body, renders, tx, s0, os);
    if !renders && host.Unharmed(old(host.faults.errors), old(host.faults.deaths)) {
      RenderIsFirstFailure(s0, recorded, os);
    }
  }

  lemma RenderIsFirstFailure(s0: State, recorded: seq<Outcome>, os: seq<Outcome>)
    requires Errors(recorded) == 0 && Deaths(recorded) == 0 && Run(s0, recorded).pc.Render?
    requires recorded + [Error(false)] <= os
    ensures FailsAtRender(s0, os)
  {
    NothingFailed(recorded);
    assert os[..|recorded|] == recorded && os[|recorded|] == Error(false);
    assert RenderFailsAt(s0, os, |recorded|);
  }

  method FinishSave(
    t: Transaction, body: string, renders: bool, ghost tx0: Tx, ghost s0: State, ghost os0: seq<Outcome>)
    returns (r: Verdict, ghost os: seq<Outcome>)
    requires t.host.Valid() && tx0.journal == t.journal && tx0.body == body && !tx0.journal.rollbackRestored
    requires Run(s0, os0) == State(t.host.Durable(), Render(tx0))
    modifies t`journal, t.host`keyring, t.host.journalFile, t.host.profileFile, t.host.faults
    ensures t.host.Valid()
    ensures t.host.Paid(os, Errors(os0) + old(t.host.faults.errors) + (if renders then 0 else 1),
                        Deaths(os0) + old(t.host.faults.deaths))
    ensures !renders ==> os0 + [Error(false)] <= os
    ensures !renders ==>
              t.host.faults.errors <= old(t.host.faults.errors) && t.host.faults.deaths <= old(t.host.faults.deaths)
    ensures Run(s0, os) == State(t.host.Durable(), Stopped(r))
  {
    ghost var tx := tx0;
    var s := if renders then Fine else Failed;
    Extend(s0, os0, Took(s, false));
    TallyTook(os0, s, false);
    os := os0 + Took(s, false);
    if s == Fine {
      s, os := t.SetTargetDigest(body, tx, s0, os);
      tx := tx.(journal := t.journal);
      if s == Fine {
        ghost var d := t.host.Durable();
        ghost var applied;
        s, applied := t.host.WriteProfile(body);
        WriteRun(s0, os, d, tx, s, applied);
        TallyTook(os, s, applied);
        os := os + Took(s, applied);
      }
    }
    if s == Dead {
      r := Crashed;
    } else if s == Failed {
      ghost var failed := os;
      r, os := t.RollbackAndAbort(tx, s0, os);
      if !renders { TallyMore(failed, os); }
    } else {
      r, os := t.Commit(tx, s0, os);
    }
  }

  /**
  `recover_keyring_transaction` in terms of the vault it protects. The promise
  holds as long as the profile can be read when the journal depends on it, and
  where no operation fails recovery succeeds.
  */
  method Recover(host: Host, ghost v: Vault) returns (r: Verdict, ghost os: seq<Outcome>)
    requires host.Valid() && Pending(host.Durable(), v)
    modifies host`keyring, host.journalFile, host.faults
    ensures host.Valid() && !r.RolledBack?
    ensures host.Paid(os, old(host.faults.errors), old(host.faults.deaths))
    ensures Run(State(old(host.Durable()), RecRead), os) == State(host.Durable(), Stopped(r))
    ensures CrashAtomicity.Discerning(old(host.Durable()), os) ==>
              && r != MissingBackup && Pending(host.Durable(), v)
              && (r == Success ==> host.Durable() == Settled(v))
    ensures r == Success ==> host.Durable().journal.None?
    ensures host.Unharmed(old(host.faults.errors), old(host.faults.deaths)) ==>
              && r == Success && host.Durable() == Settled(v)
              && CrashAtomicity.Discerning(old(host.Durable()), os)
  {
    ghost var d := host.Durable();
    r, os := RecoverLocked(host);
    if CrashAtomicity.Discerning(d, os) { CrashAtomicity.RecoveryFromStart(d, os, v); }
    CrashAtomicity.FinishedLeavesNoJournal(State(d, RecRead), os);
    if host.Unharmed(old(host.faults.errors), old(host.faults.deaths)) { UndisturbedRecovery(d, os, v); }
  }

  lemma UndisturbedRecovery(d: AuthJournal.Durable, os: seq<Outcome>, v: Vault)
    requires Pending(d, v) && Errors(os) == 0 && Deaths(os) == 0 && Run(State(d, RecRead), os).pc.Stopped?
    ensures Run(State(d, RecRead), os) == State(Settled(v), Stopped(Success))
    ensures CrashAtomicity.Discerning(d, os)
  {
    NothingFailed(os);
    var n := CrashAtomicity.RecoverySettles(d, v);
    StoppedAgree(State(d, RecRead), |os|, n);
    if |os| > 1 { assert os[1] == CrashAtomicity.Dones(|os|)[1]; }
  }

  /**
  `write_config_exact` under the lock: recover, then save.  If the recovery was
  not blind to a commit, then on every way out that is not a late rollback the
  durable state stands for the old vault or for the new one, and success means
  exactly the new one.  Where no operation fails it succeeds, or, if the text
  cannot be rendered, puts everything back.
  */
  method WriteConfigExact(host: Host, txn: nat, plan: seq<PlanOp>, body: string, renders: bool, ghost v: Vault)
    returns (r: Verdict, ghost recovery: seq<Outcome>, ghost os: seq<Outcome>)
    requires host.Valid() && Pending(host.Durable(), v)
    modifies host`keyring, host.journalFile, host.profileFile, host.faults
    ensures host.Valid()
    ensures RecoveredThenSaved(old(host.Durable()), recovery, txn, plan, body, os, host.Durable(), r)
    ensures Errors(recovery) + Errors(os) + host.faults.errors <= old(host.faults.errors) + (if renders then 0 else 1)
    ensures Deaths(recovery) + Deaths(os) + host.faults.deaths <= old(host.faults.deaths)
    ensures CrashAtomicity.Discerning(old(host.Durable()), recovery) ==>
              Saved(CrashAtomicity.Begin(v, txn, plan, body), os, host.Durable(), r, v,
                    CrashAtomicity.Target(v, plan, body))
    ensures host.Unharmed(old(host.faults.errors), old(host.faults.deaths)) ==>
              && r == (if renders then Success else RolledBack)
              && host.Durable() == Settled(if renders then CrashAtomicity.Target(v, plan, body) else v)
    ensures old(host.faults.errors) + (if renders then 0 else 1) <= 1 && old(host.faults.deaths) == 0
            && CrashAtomicity.Discerning(old(host.Durable()), recovery)
            && NoLateRollback(CrashAtomicity.Begin(v, txn, plan, body), os) ==>
              EndsAfterOneError(os, host.Durable(), r, v, CrashAtomicity.Target(v, plan, body))
  {
    os := [];
    ghost var e, d0 := old(host.faults.errors), old(host.faults.deaths);
    r, recovery := Recover(host, v);
    assert Errors(os) == Deaths(os) == 0;
    if r != Success {
      if d0 == 0 { FailedRecovery(old(host.Durable()), recovery, host.Durable(), r); }
      return;
    }
    ghost var d := host.Durable();
    ghost var unharmed := host.Unharmed(e, d0);
    r, os := SaveLocked(host, txn, plan, body, renders);
    assert host.Unharmed(e, d0) ==> unharmed;
    if d == Settled(v) { SavedRun(v, txn, plan, body, os, host.Durable(), r); }
    if host.Unharmed(e, d0) { UndisturbedSave(v, txn, plan, body, renders, os); }
    if d == Settled(v) && e + (if renders then 0 else 1) <= 1 && d0 == 0
       && NoLateRollback(CrashAtomicity.Begin(v, txn, plan, body), os) {
      CrashAtomicity.BeginIsOk(v, txn, plan, body);
      OneErrorEnds(CrashAtomicity.Begin(v, txn, plan, body), os, v, CrashAtomicity.Target(v, plan, body));
    }
  }

  /** At most one operation failed and none was fatal: done, undone, or only the clean-up is left. */
  ghost predicate EndsAfterOneError(os: seq<Outcome>, d: AuthJournal.Durable, r: Verdict, v: Vault, target: Vault) {
    if os == [] then r == Failure && Pending(d, v)
    else EndsWithOneError(State(d, Stopped(r)), v, target)
  }

  /** Without a death a recovery that does not succeed reports an error. */
  lemma FailedRecovery(d: AuthJournal.Durable, os: seq<Outcome>, d': AuthJournal.Durable, r: Verdict)
    requires Run(State(d, RecRead), os) == State(d', Stopped(r)) && Deaths(os) == 0
    ensures r != Crashed
  {
    NoDeathNoCrash(State(d, RecRead), os);
  }

  lemma {:induction false} NoDeathNoCrash(s: State, os: seq<Outcome>)
    requires s.pc != Stopped(Crashed) && Deaths(os) == 0
    ensures Run(s, os).pc != Stopped(Crashed)
    decreases |os|
  {
    if os != [] {
      TallyFront(os);
      NoDeathNoCrash(Step(s, os[0]), os[1..]);
    }
  }

  lemma UndisturbedSave(v: Vault, txn: nat, plan: seq<PlanOp>, body: string, renders: bool, os: seq<Outcome>)
    requires IsVault(v) && Run(CrashAtomicity.Begin(v, txn, plan, body), os).pc.Stopped?
    requires Errors(os) <= (if renders then 0 else 1) && Deaths(os) == 0
    requires !renders ==> FailsAtRender(CrashAtomicity.Begin(v, txn, plan, body), os)
    ensures Run(CrashAtomicity.Begin(v, txn, plan, body), os)
              == if renders then State(Settled(CrashAtomicity.Target(v, plan, body)), Stopped(Success))
                 else State(Settled(v), Stopped(RolledBack))
  {
    var b := CrashAtomicity.Begin(v, txn, plan, body);
    if renders {
      NothingFailed(os);
      var n := WriterSettles(v, txn, plan, body);
      StoppedAgree(b, |os|, n);
    } else {
      CrashAtomicity.BeginIsOk(v, txn, plan, body);
      RenderFailureRollsBack(b, os, v);
    }
  }

  /** A recovery, and a save exactly if the recovery succeeded; each is a run of the machine to its verdict. */
  ghost predicate RecoveredThenSaved(
    d0: AuthJournal.Durable, recovery: seq<Outcome>, txn: nat, plan: seq<PlanOp>, body: string, os: seq<Outcome>,
    d: AuthJournal.Durable, r: Verdict)
  {
    var mid := Run(State(d0, RecRead), recovery);
    if os == [] then mid == State(d, Stopped(r)) && r != Success
    else mid.pc == Stopped(Success) && Run(State(mid.d, BeginWrite(mid.d, txn, plan, body)), os) == State(d, Stopped(r))
  }

  /** What a save leaves when it is over; without outcomes it never began. */
  ghost predicate Saved(
    b: State, os: seq<Outcome>, d: AuthJournal.Durable, r: Verdict, v: Vault, target: Vault)
  {
    if os == [] then r != MissingBackup && Pending(d, v)
    else
      && Run(b, os) == State(d, Stopped(r))
      && (NoLateRollback(b, os) ==>
            && r != MissingBackup && (Pending(d, v) || Pending(d, target))
            && (r == Success ==> d == Settled(target)))
  }

  lemma SavedRun(
    v: Vault, txn: nat, plan: seq<PlanOp>, body: string, os: seq<Outcome>, d: AuthJournal.Durable, r: Verdict)
    requires IsVault(v) && Run(CrashAtomicity.Begin(v, txn, plan, body), os) == State(d, Stopped(r))
    ensures Saved(CrashAtomicity.Begin(v, txn, plan, body), os, d, r, v, CrashAtomicity.Target(v, plan, body))
  {
    var b := CrashAtomicity.Begin(v, txn, plan, body);
    CrashAtomicity.BeginIsOk(v, txn, plan, body);
    if NoLateRollback(b, os) { CrashAtomicity.WriterRun(b, os, v, CrashAtomicity.Target(v, plan, body)); }
  }
}
