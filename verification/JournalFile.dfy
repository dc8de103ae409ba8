/** The host helper's journal file: a lease is saved by writing a temporary file, syncing it,
    renaming it over the journal and syncing the directory, and the save can be cut short or the
    machine lose power between any two of these steps. */
module JournalFile {
  import opened Outcomes

  const LARGEST: nat := 16384

  type Text = string

  /** A file's content, and whether all of it has reached the disk. */
  datatype File = File(content: Text, synced: bool)

  /** How a step ends: it takes effect, it raises without or with its effect, or the process is
      killed before it or after it. */
  datatype Fate = Works | RaisesBefore | RaisesAfter | KilledBefore | KilledAfter

  predicate Killed(fate: Fate) { fate.KilledBefore? || fate.KilledAfter? }

  predicate TakesEffect(fate: Fate) { !fate.RaisesBefore? && !fate.KilledBefore? }

  datatype Ending = Saved | Raised | Dead

  /** The state directory. The running system sees the journal and the temporary file; the disk
      may still have the journal's name on the file it had at the last sync of the directory. */
  class Directory {
    var journal: Option<File>
    var onDisk: Option<File>
    var temporary: Option<File>
    var steps: nat
    const fates: nat -> Fate
    /** How much of a write arrives when it does not work. */
    const partial: nat -> nat
    /** Renames that reach the disk before the directory is synced. */
    const early: nat -> bool

    /** Both names are on files whose whole content is on the disk. */
    ghost predicate Sound()
      reads this
    {
      (journal.Some? ==> journal.value.synced) && (onDisk.Some? ==> onDisk.value.synced)
    }

    constructor (text: Option<Text>, fates: nat -> Fate, partial: nat -> nat, early: nat -> bool)
      ensures Sound() && temporary == None
      ensures journal == onDisk == match text case None => None case Some(t) => Some(File(t, true))
      ensures this.fates == fates && this.partial == partial && this.early == early
    {
      var file := match text case None => None case Some(t) => Some(File(t, true));
      journal, onDisk, temporary, steps := file, file, None, 0;
      this.fates, this.partial, this.early := fates, partial, early;
    }

    /** load: the whole journal, if it is there and not oversized. */
    method Load() returns (text: Option<Text>, oversized: bool)
      ensures oversized <==> journal.Some? && |journal.value.content| > LARGEST
      ensures text == if journal.None? || oversized then None else Some(journal.value.content)
    {
      if journal.None? {
        return None, false;
      }
      oversized := |journal.value.content| > LARGEST;
      text := if oversized then None else Some(journal.value.content);
    }

    method Next() returns (fate: Fate)
      modifies this`steps
      ensures steps == old(steps) + 1 && fate == fates(old(steps))
    {
      fate, steps := fates(steps), steps + 1;
    }

    method MakeTemporary() returns (fate: Fate)
      modifies this`steps, this`temporary
      ensures fate == fates(old(steps))
      ensures temporary == if TakesEffect(fate) then Some(File("", false)) else old(temporary)
    {
      fate := Next();
      if TakesEffect(fate) {
        temporary := Some(File("", false));
      }
    }

    /** The write and the flush; one that does not work may leave the beginning of the text. */
    method Write(text: Text) returns (fate: Fate)
      requires temporary.Some?
      modifies this`steps, this`temporary
      ensures fate == fates(old(steps))
      ensures temporary.Some? && (fate.Works? ==> temporary.value.content == text)
    {
      var length := partial(steps);
      fate := Next();
      if fate.Works? || length > |text| {
        temporary := Some(File(text, false));
      } else {
        temporary := Some(File(text[..length], false));
      }
    }

    method SyncTemporary() returns (fate: Fate)
      requires temporary.Some?
      modifies this`steps, this`temporary
      ensures fate == fates(old(steps))
      ensures temporary.Some? && temporary.value.content == old(temporary).value.content
      ensures fate.Works? ==> temporary.value.synced
    {
      fate := Next();
      if TakesEffect(fate) {
        temporary := Some(temporary.value.(synced := true));
      }
    }

    /** The rename replaces the journal's name at once for everybody who looks; the disk may or
        may not follow. */
    method Replace() returns (fate: Fate)
      requires temporary.Some?
      modifies this`steps, this`temporary, this`journal, this`onDisk
      ensures fate == fates(old(steps))
      ensures if TakesEffect(fate) then journal == old(temporary) && temporary == None
              else journal == old(journal) && temporary == old(temporary)
      ensures onDisk == old(onDisk) || (TakesEffect(fate) && onDisk == old(temporary))
    {
      var reaches := early(steps);
      fate := Next();
      if TakesEffect(fate) {
        journal, temporary := temporary, None;
        if reaches {
          onDisk := journal;
        }
      }
    }

    method SyncDirectory() returns (fate: Fate)
      modifies this`steps, this`onDisk
      ensures fate == fates(old(steps))
      ensures onDisk == if TakesEffect(fate) then journal else old(onDisk)
    {
      fate := Next();
      if TakesEffect(fate) {
        onDisk := journal;
      }
    }

    /** The finally clause: a process that is alive removes what is left of the temporary. */
    method RemoveTemporary() returns (fate: Fate)
      modifies this`steps, this`temporary
      ensures fate == fates(old(steps))
      ensures TakesEffect(fate) ==> temporary == None
      ensures !TakesEffect(fate) ==> temporary == old(temporary)
    {
      fate := Next();
      if TakesEffect(fate) {
        temporary := None;
      }
    }

    /** The steps inside the try. */
    method WriteAndReplace(text: Text) returns (fate: Fate)
      requires temporary.Some? && Sound()
      modifies this
      ensures (forall n :: fates(n).Works?) ==> fate.Works?
      ensures Sound()
      ensures journal == old(journal) || journal == Some(File(text, true))
      ensures onDisk == old(onDisk) || onDisk == Some(File(text, true))
      ensures fate.Works? ==> journal == onDisk == Some(File(text, true))
    {
      fate := Write(text);
      if !fate.Works? {
        return;
      }
      fate := SyncTemporary();
      if !fate.Works? {
        return;
      }
      fate := Replace();
      if !fate.Works? {
        return;
      }
      fate := SyncDirectory();
    }

    /** save. */
    method Save(text: Text) returns (ending: Ending)
      requires Sound()
      modifies this
      ensures Sound()
      ensures journal == old(journal) || journal == Some(File(text, true))
      ensures onDisk == old(onDisk) || onDisk == Some(File(text, true))
      ensures journal != old(journal) || onDisk != old(onDisk) ==> |text| <= LARGEST
      ensures ending.Saved? ==>
                |text| <= LARGEST && temporary == None && journal == onDisk == Some(File(text, true))
      ensures |text| > LARGEST ==> ending.Raised?
      ensures |text| <= LARGEST && (forall n :: fates(n).Works?) ==> ending.Saved?
    {
      if |text| > LARGEST {
        return Raised;
      }
      var fate := MakeTemporary();
      if !fate.Works? {
        return if Killed(fate) then Dead else Raised;
      }
      fate := WriteAndReplace(text);
      if Killed(fate) {
        return Dead;
      }
      var removed := RemoveTemporary();
      if Killed(removed) {
        return Dead;
      }
      ending := if fate.Works? && removed.Works? then Saved else Raised;
    }

    /** clear: the name goes at once for everybody who looks; the directory is not synced, so the
        disk may or may not follow. */
    method Clear() returns (fate: Fate)
      requires Sound()
      modifies this`steps, this`journal, this`onDisk
      ensures Sound() && fate == fates(old(steps))
      ensures journal == if TakesEffect(fate) then None else old(journal)
      ensures onDisk == if TakesEffect(fate) && early(old(steps)) then None else old(onDisk)
    {
      var reaches := early(steps);
      fate := Next();
      if TakesEffect(fate) {
        journal := None;
        if reaches {
          onDisk := None;
        }
      }
    }

    /** The machine loses power and comes up again with what the disk has. A file that was never
        synced may hold anything. */
    method LosePower(anything: Text)
      modifies this
      ensures old(onDisk).None? ==> journal == onDisk == None
      ensures old(onDisk).Some? ==>
                journal == onDisk == Some(File(
                  if old(onDisk).value.synced then old(onDisk).value.content else anything, true))
    {
      if onDisk.Some? {
        onDisk := Some(File(if onDisk.value.synced then onDisk.value.content else anything, true));
      }
      journal, temporary := onDisk, None;
    }
  }

  /** An attempt to save, and what the disk shows in place of unsynced content if the machine
      loses power after it. */
  datatype Attempt = Attempt(text: Text, powerLoss: Option<Text>)

  /** The index of the last save that reported success. */
  function LastSaved(endings: seq<Ending>): (last: Option<nat>)
    ensures last.Some? ==> last.value < |endings| && endings[last.value].Saved?
    ensures forall i | 0 <= i < |endings| && endings[i].Saved? :: last.Some? && i <= last.value
  {
    if endings == [] then None
    else if endings[|endings| - 1].Saved? then Some(|endings| - 1)
    else LastSaved(endings[..|endings| - 1])
  }

  /** The file holds, whole, the text of the last save that reported success or of a later
      attempt; as long as none did, it may also still be the first file. */
  predicate Holds(file: Option<File>, first: Option<File>, attempts: seq<Attempt>, last: Option<nat>) {
    || (last.None? && file == first)
    || (file.Some? && |file.value.content| <= LARGEST
        && exists i | 0 <= i < |attempts| ::
             (last.Some? ==> last.value <= i) && attempts[i].text == file.value.content)
  }

  lemma HoldsUnsaved(file: Option<File>, first: Option<File>, attempts: seq<Attempt>,
                     last: Option<nat>, next: Attempt)
    requires last.Some? ==> last.value < |attempts|
    requires Holds(file, first, attempts, last)
          || (|next.text| <= LARGEST && file == Some(File(next.text, true)))
    ensures Holds(file, first, attempts + [next], last)
  {
    var more := attempts + [next];
    assert more[|attempts|] == next;
    forall i | 0 <= i < |attempts| ensures more[i] == attempts[i] {
    }
  }

  lemma HoldsSaved(file: Option<File>, first: Option<File>, attempts: seq<Attempt>, next: Attempt)
    requires |next.text| <= LARGEST && file == Some(File(next.text, true))
    ensures Holds(file, first, attempts + [next], Some(|attempts|))
  {
    assert (attempts + [next])[|attempts|] == next;
  }

  /** However many saves are cut short and wherever, and whenever the machine loses power, the
      next load sees, whole, the last lease whose save reported success or one attempted later;
      as long as none did, it may also see the first. */
  method SaveAll(directory: Directory, attempts: seq<Attempt>)
    returns (endings: seq<Ending>, loaded: Option<Text>, oversized: bool)
    requires directory.Sound() && directory.onDisk == directory.journal
    requires directory.journal.Some? ==> |directory.journal.value.content| <= LARGEST
    modifies directory
    ensures !oversized && directory.Sound() && |endings| == |attempts|
    ensures Holds(directory.journal, old(directory.journal), attempts, LastSaved(endings))
    ensures loaded == if directory.journal.None? then None else Some(directory.journal.value.content)
    ensures forall i | 0 <= i < |attempts| && endings[i].Saved? :: |attempts[i].text| <= LARGEST
  {
    ghost var first := directory.journal;
    endings := [];
    for n := 0 to |attempts|
      invariant directory.Sound() && |endings| == n
      invariant Holds(directory.journal, first, attempts[..n], LastSaved(endings))
      invariant Holds(directory.onDisk, first, attempts[..n], LastSaved(endings))
      invariant forall i | 0 <= i < n && endings[i].Saved? :: |attempts[i].text| <= LARGEST
    {
      var ending := directory.Save(attempts[n].text);
      assert attempts[..n + 1] == attempts[..n] + [attempts[n]];
      assert (endings + [ending])[..n] == endings;
      if ending.Saved? {
        HoldsSaved(directory.journal, first, attempts[..n], attempts[n]);
      } else {
        HoldsUnsaved(directory.journal, first, attempts[..n], LastSaved(endings), attempts[n]);
        HoldsUnsaved(directory.onDisk, first, attempts[..n], LastSaved(endings), attempts[n]);
      }
      if attempts[n].powerLoss.Some? {
        directory.LosePower(attempts[n].powerLoss.value);
      }
      endings := endings + [ending];
    }
    assert attempts[..|attempts|] == attempts;
    loaded, oversized := directory.Load();
  }

  /** A lease that was cleared is gone for the running system. After a power loss it is gone if
      and only if the unlink reached the disk in time, or the disk had no journal. */
  method ClearThenLosePower(directory: Directory, anything: Text)
    returns (fate: Fate, before: Option<Text>, after: Option<Text>)
    requires directory.Sound()
    requires directory.journal.Some? ==> |directory.journal.value.content| <= LARGEST
    requires directory.onDisk.Some? ==> |directory.onDisk.value.content| <= LARGEST
    modifies directory
    ensures fate == directory.fates(old(directory.steps))
    ensures fate.Works? ==>
              && before == None
              && (after == None <==>
                    directory.early(old(directory.steps)) || old(directory.onDisk).None?)
              && (after.Some? ==> Some(File(after.value, true)) == old(directory.onDisk))
  {
    var oversized;
    fate := directory.Clear();
    before, oversized := directory.Load();
    directory.LosePower(anything);
    after, oversized := directory.Load();
  }

  /** A lease saved and cleared, both with success, that is back after a power loss. */
  method ClearedLeaseReturns(text: Text) returns (saved: Ending, cleared: Fate, after: Option<Text>)
    requires |text| <= LARGEST
    ensures saved.Saved? && cleared.Works? && after == Some(text)
  {
    var directory := new Directory(None, _ => Works, _ => 0, _ => false);
    saved := directory.Save(text);
    var before;
    cleared, before, after := ClearThenLosePower(directory, "");
  }
}
