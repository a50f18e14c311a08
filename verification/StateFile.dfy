// Publication of vm-state.json (launcher/mac/forward_commands.go): saveForwardState rewrites one key
// of the JSON object and writeVMState replaces the file by renaming a finished temporary file.

module StateFile {
  import opened Text
  import opened ForwardService

  datatype Json = Forwarded(states: map<string, ForwardState>) | Opaque(text: string)

  type Document = map<string, Json>

  /** A file as a reader finds it. Only `Complete` is a finished document. */
  datatype Content =
    | Complete(document: Document)
    | JsonNull
    | NotAnObject(text: string)
    | Unfinished(document: Document)

  const STATE_FILE := "vm-state.json"
  const TEMP_PREFIX := ".vm-state-"

  /** The step at which the operating system refuses, if any. */
  datatype Fault = NoFault | CreateFault | WriteFault | ChmodFault | CloseFault | RenameFault

  /**
   * What the operating system does during one writeVMState: the names os.CreateTemp tries, in order,
   * the step that fails, and whether the deferred os.Remove of a leftover file fails too.
   */
  datatype WriteLuck = WriteLuck(tries: seq<string>, fault: Fault, removeFails: bool)

  /** The name os.CreateTemp settles on: the first one that is free, None when it gives up. */
  function TempName(files: map<string, Content>, tries: seq<string>): (name: Option<string>)
    ensures name.Some? ==> name.value !in files && name.value != STATE_FILE
    ensures name.Some? ==> exists i ::
      && 0 <= i < |tries| && name.value == TEMP_PREFIX + tries[i]
      && forall j | 0 <= j < i :: TEMP_PREFIX + tries[j] in files
    ensures name.None? <==> forall i | 0 <= i < |tries| :: TEMP_PREFIX + tries[i] in files
  {
    if tries == [] then None
    else if TEMP_PREFIX + tries[0] in files then TempName(files, tries[1..])
    else
      assert (TEMP_PREFIX + tries[0])[0] != STATE_FILE[0];
      Some(TEMP_PREFIX + tries[0])
  }

  /** The working directory of the daemon. */
  class Directory {
    var files: map<string, Content>
    /** What an observer that reads vm-state.json after each step of a writer has seen. */
    ghost var seen: seq<Option<Content>>

    ghost function Published(): Option<Content>
      reads this
    {
      if STATE_FILE in files then Some(files[STATE_FILE]) else None
    }

    constructor (initial: map<string, Content>)
      ensures files == initial && seen == []
    {
      files := initial;
      seen := [];
    }

    method Put(name: string, content: Content)
      modifies this
      ensures files == old(files)[name := content]
      ensures seen == old(seen) + [Published()]
    {
      files := files[name := content];
      seen := seen + [Published()];
    }

    method Remove(name: string)
      modifies this
      ensures files == old(files) - {name}
      ensures seen == old(seen) + [Published()]
    {
      files := files - {name};
      seen := seen + [Published()];
    }

    method Rename(from: string, to: string)
      requires from in files && from != to
      modifies this
      ensures files == (old(files) - {from})[to := old(files)[from]]
      ensures seen == old(seen) + [Published()]
    {
      files := (files - {from})[to := files[from]];
      seen := seen + [Published()];
    }
  }

  ghost predicate TurnsAt(seen: seq<Option<Content>>, from: nat, k: nat, before: Option<Content>, after: Option<Content>) {
    && from <= k <= |seen|
    && (forall i | from <= i < k :: seen[i] == before)
    && (forall i | k <= i < |seen| :: seen[i] == after)
  }

  /** Every observation from `from` on is the old document up to some point and the new one after it. */
  ghost predicate OldThenNew(seen: seq<Option<Content>>, from: nat, before: Option<Content>, after: Option<Content>) {
    exists k :: TurnsAt(seen, from, k, before, after)
  }

  /**
   * writeVMState. Readers of vm-state.json see the complete old document until they see the complete
   * new one. It fails exactly when a step fails, then leaves the published file alone, and leaves a
   * temporary file behind only when removing that file fails as well.
   */
  method WriteVMState(dir: Directory, data: Document, luck: WriteLuck) returns (failed: bool)
    modifies dir
    ensures failed <==> luck.fault != NoFault || TempName(old(dir.files), luck.tries).None?
    ensures !failed ==> dir.files == old(dir.files)[STATE_FILE := Complete(data)]
    ensures failed ==> dir.Published() == old(dir.Published())
    ensures failed && !luck.removeFails ==> dir.files == old(dir.files)
    ensures failed ==>
      || dir.files == old(dir.files)
      || exists temp :: TempName(old(dir.files), luck.tries) == Some(temp) && dir.files - {temp} == old(dir.files)
    ensures old(dir.seen) <= dir.seen
    ensures OldThenNew(dir.seen, |old(dir.seen)|, old(dir.Published()), dir.Published())
  {
    hide TempName;
    ghost var start, before := |dir.seen|, dir.Published();
    assert TurnsAt(dir.seen, start, start, before, before);
    var name := TempName(dir.files, luck.tries);
    if luck.fault == CreateFault || name.None? {
      return true;
    }
    var temp := name.value;
    dir.Put(temp, Unfinished(map[]));
    failed := luck.fault == WriteFault;
    dir.Put(temp, if failed then Unfinished(data) else Complete(data));
    failed := failed || luck.fault == ChmodFault || luck.fault == CloseFault || luck.fault == RenameFault;
    assert TurnsAt(dir.seen, start, |dir.seen|, before, dir.Published());
    if !failed {
      dir.Rename(temp, STATE_FILE);
      assert dir.files == old(dir.files)[STATE_FILE := Complete(data)];
      assert TurnsAt(dir.seen, start, |dir.seen| - 1, before, dir.Published());
    } else if !luck.removeFails {
      dir.Remove(temp);
      assert dir.files == old(dir.files);
      assert TurnsAt(dir.seen, start, |dir.seen|, before, dir.Published());
    } else {
      assert dir.files - {temp} == old(dir.files);
    }
  }

  /** What saveForwardState needs from the operating system: a readable file, then writeVMState. */
  datatype SaveLuck = SaveLuck(readFails: bool, write: WriteLuck)

  /** The published file is a JSON object that can be read, and no step of writing the new one fails. */
  predicate CanSave(files: map<string, Content>, luck: SaveLuck) {
    && !luck.readFails && luck.write.fault == NoFault
    && TempName(files, luck.write.tries).Some?
    && STATE_FILE in files && files[STATE_FILE].Complete?
  }

  /**
   * saveForwardState: on success the `forwards` key of the published object is the given mapping and
   * every other key is as it was; on any failure the published file is as it was.
   */
  method SaveForwardState(dir: Directory, states: map<string, ForwardState>, luck: SaveLuck)
    returns (err: Option<string>)
    modifies dir
    ensures old(dir.seen) <= dir.seen
    ensures OldThenNew(dir.seen, |old(dir.seen)|, old(dir.Published()), dir.Published())
    ensures err.Some? ==> dir.Published() == old(dir.Published())
    ensures err.Some? && !luck.write.removeFails ==> dir.files == old(dir.files)
    ensures err.None? ==>
      && old(dir.Published()).Some? && old(dir.Published()).value.Complete?
      && dir.Published() == Some(Complete(old(dir.Published()).value.document["forwards" := Forwarded(states)]))
      && dir.files - {STATE_FILE} == old(dir.files) - {STATE_FILE}
    ensures err.None? <==> CanSave(old(dir.files), luck)
  {
    assert TurnsAt(dir.seen, |dir.seen|, |dir.seen|, dir.Published(), dir.Published());
    if luck.readFails || STATE_FILE !in dir.files {
      return Some("cannot read VM state");
    }
    match dir.files[STATE_FILE]
    case NotAnObject(_) => return Some("cannot decode VM state");
    case Unfinished(_) => return Some("cannot decode VM state");
    case JsonNull => return Some("VM state must be a JSON object");
    case Complete(document) =>
      var failed := WriteVMState(dir, document["forwards" := Forwarded(states)], luck.write);
      if failed {
        return Some("cannot write VM state");
      }
      return None;
  }
}
