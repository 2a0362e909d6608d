/** Installing one resource: the new tree is built in a stage directory and swapped in, the
    earlier tree is set aside and brought back when something fails, and temporary files are
    removed in the end.  Every operation may fail. */
module InstallSwap {
  import opened Options

  /** The contents of a directory. */
  type Tree = string

  datatype Entry = Entry(version: string, sha256: string, executables: string)

  /** Reading the metadata and the manifest, making the directories, the steps of the attempt
      in order, and those that undo or clean up. */
  datatype Step =
    | Resolve | Begin
    | Download | Verify | MakeStage | Extract | FindPayload | Supplement | PostInstall
    | BuildEntry | CheckExecutable | CheckHealth
    | SetAside | MoveIn | Detect | Record | DropBackup | Report
    | UndoSetAside | DropNew | PutBack
    | RemoveArchive | RemoveStage | RemoveBackup | RestoreBackup

  predicate IsPreparation(s: Step) {
    match s
    case Download | Verify | MakeStage | Extract | FindPayload => true
    case Supplement | PostInstall | BuildEntry | CheckExecutable | CheckHealth => true
    case _ => false
  }

  /** The steps that undo a failed attempt or clean up after any attempt. */
  predicate IsUndoing(s: Step) {
    match s
    case UndoSetAside | DropNew | PutBack | RemoveArchive | RemoveStage | RemoveBackup | RestoreBackup => true
    case _ => false
  }

  datatype Outcome = AlreadyInstalled | Installed | Failed(step: Step)

  class Slot {
    const name: string
    const version: string
    const sha256: string
    /** The payload of the archive, after supplemental files and post-install commands. */
    const newTree: Tree
    /** Whether the payload is the stage directory itself or a directory inside it. */
    const payloadIsStage: bool
    /** What a failing extraction or removal leaves behind. */
    const debris: Tree
    const partialDownload: bool
    const detect: Tree -> string
    const fails: Step -> bool

    var archive: bool
    var stage: Option<Tree>
    var destination: Option<Tree>
    var backup: Option<Tree>
    var manifest: map<string, Entry>

    constructor (name: string, version: string, sha256: string, newTree: Tree, payloadIsStage: bool, debris: Tree,
                 partialDownload: bool, detect: Tree -> string, fails: Step -> bool,
                 destination: Option<Tree>, manifest: map<string, Entry>)
      ensures this.name == name && this.version == version && this.sha256 == sha256 && this.newTree == newTree
      ensures this.payloadIsStage == payloadIsStage && this.debris == debris && this.partialDownload == partialDownload
      ensures this.detect == detect && this.fails == fails
      ensures this.destination == destination && this.manifest == manifest && Clean()
    {
      this.name, this.version, this.sha256, this.newTree := name, version, sha256, newTree;
      this.payloadIsStage, this.debris, this.partialDownload := payloadIsStage, debris, partialDownload;
      this.detect, this.fails := detect, fails;
      this.destination, this.manifest := destination, manifest;
      this.archive, this.stage, this.backup := false, None, None;
    }

    predicate Clean()
      reads this
    {
      !archive && stage.None? && backup.None?
    }

    function NewManifest(before: map<string, Entry>): map<string, Entry> {
      before[name := Entry(version, sha256, detect(newTree))]
    }

    predicate UpToDate(healthy: bool)
      reads this`manifest
    {
      name in manifest && manifest[name].version == version && manifest[name].sha256 == sha256 && healthy
    }

    predicate Prepares() {
      !fails(Resolve) && !fails(Begin) && forall s | IsPreparation(s) :: !fails(s)
    }

    /** The attempt gets as far as the new tree at its destination. */
    predicate MovesIn(earlier: bool) {
      Prepares() && (earlier ==> !fails(SetAside)) && !fails(MoveIn)
    }

    /** The attempt gets to its end. */
    predicate Succeeds(earlier: bool) {
      MovesIn(earlier) && !fails(Detect) && !fails(Record) && (earlier ==> !fails(DropBackup)) && !fails(Report)
    }

    /** Nothing that undoes or cleans up fails. */
    predicate UndoingWorks() {
      forall s | IsUndoing(s) :: !fails(s)
    }

    /** Cleaning up gets as far as the tree that was set aside, once the new tree is in. */
    predicate CleaningReachesBackup() {
      !fails(RemoveArchive) && (payloadIsStage || !fails(RemoveStage))
    }

    method Prepare() returns (failure: Option<Step>)
      requires Clean()
      modifies this`archive, this`stage
      ensures failure.Some? ==> IsPreparation(failure.value) && fails(failure.value)
      ensures failure.None? ==> archive && stage == Some(newTree) && forall s | IsPreparation(s) :: !fails(s)
    {
      archive := !fails(Download) || partialDownload;
      if fails(Download) { return Some(Download); }
      if fails(Verify) { return Some(Verify); }
      if fails(MakeStage) { return Some(MakeStage); }
      stage := Some("");
      if fails(Extract) {
        stage := Some(debris);
        return Some(Extract);
      }
      stage := Some(newTree);
      if fails(FindPayload) { return Some(FindPayload); }
      if fails(Supplement) { return Some(Supplement); }
      if fails(PostInstall) { return Some(PostInstall); }
      if fails(BuildEntry) { return Some(BuildEntry); }
      if fails(CheckExecutable) { return Some(CheckExecutable); }
      if fails(CheckHealth) { return Some(CheckHealth); }
      return None;
    }

    /** Sets the earlier tree aside and moves the payload in, or undoes it. */
    method Swap() returns (failure: Option<Step>)
      requires stage == Some(newTree) && backup.None?
      modifies this`stage, this`destination, this`backup
      ensures failure.None? ==>
                && !fails(MoveIn) && (old(destination).Some? ==> !fails(SetAside))
                && destination == Some(newTree) && backup == old(destination)
                && stage == if payloadIsStage then None else Some("")
      ensures failure.Some? ==>
                && (|| (failure == Some(SetAside) && old(destination).Some? && fails(SetAside))
                    || (failure == Some(MoveIn) && fails(MoveIn))
                    || (failure == Some(UndoSetAside) && fails(MoveIn) && fails(UndoSetAside)))
                && (if failure == Some(UndoSetAside) then destination.None? && backup == old(destination)
                    else destination == old(destination) && backup.None?)
    {
      if destination.Some? {
        if fails(SetAside) { return Some(SetAside); }
        backup, destination := destination, None;
      }
      if fails(MoveIn) {
        if backup.Some? && destination.None? {
          if fails(UndoSetAside) { return Some(UndoSetAside); }
          destination, backup := backup, None;
        }
        return Some(MoveIn);
      }
      destination := Some(newTree);
      stage := if payloadIsStage then None else Some("");
      return None;
    }

    /** Records the new tree in the manifest, or brings the earlier tree back. */
    method Commit() returns (failure: Option<Step>)
      requires destination == Some(newTree)
      modifies this`destination, this`backup, this`manifest
      ensures failure.None? ==>
                !fails(Record) && manifest == NewManifest(old(manifest)) && destination == Some(newTree)
                  && backup == old(backup)
      ensures failure.Some? ==> fails(Record) && manifest == old(manifest)
      ensures failure.Some? ==>
                || (failure == Some(Record) && destination == old(backup) && backup.None?)
                || (failure == Some(DropNew) && fails(DropNew) && destination == Some(debris) && backup == old(backup))
                || (failure == Some(PutBack) && fails(PutBack) && destination.None? && backup == old(backup)
                    && backup.Some?)
      ensures failure.Some? && fails(DropNew) ==> failure == Some(DropNew)
    {
      if fails(Record) {
        if destination.Some? {
          if fails(DropNew) {
            destination := Some(debris);
            return Some(DropNew);
          }
          destination := None;
        }
        if backup.Some? {
          if fails(PutBack) { return Some(PutBack); }
          destination, backup := backup, None;
        }
        return Some(Record);
      }
      manifest := NewManifest(manifest);
      return None;
    }

    /** Removes what is only temporary; stops where it fails itself. */
    method CleanUp() returns (failure: Option<Step>)
      modifies this`archive, this`stage, this`destination, this`backup
      ensures failure.None? ==> Clean()
      ensures failure.Some? ==> IsUndoing(failure.value) && fails(failure.value)
      ensures old(destination).Some? || old(backup).None? ==> destination == old(destination)
      ensures old(destination).None? && old(backup).Some? ==>
                || (destination == old(backup) && backup.None?)
                || (destination.None? && backup == old(backup) && failure.Some?)
      ensures old(backup).None? ==>
                && backup.None?
                && (failure.None? <==>
                      !(old(archive) && fails(RemoveArchive)) && !(old(stage).Some? && fails(RemoveStage)))
      ensures old(destination).Some? && old(backup).Some? ==>
                if (old(archive) && fails(RemoveArchive)) || (old(stage).Some? && fails(RemoveStage))
                  then backup == old(backup)
                else backup == None || backup == Some(debris)
    {
      if archive {
        if fails(RemoveArchive) { return Some(RemoveArchive); }
        archive := false;
      }
      if stage.Some? {
        if fails(RemoveStage) {
          stage := Some(debris);
          return Some(RemoveStage);
        }
        stage := None;
      }
      if backup.Some? {
        if destination.Some? {
          if fails(RemoveBackup) {
            backup := Some(debris);
            return Some(RemoveBackup);
          }
          backup := None;
        } else {
          if fails(RestoreBackup) { return Some(RestoreBackup); }
          destination, backup := backup, None;
        }
      }
      return None;
    }

    /** Everything that the cleaning up follows, up to the last report. */
    method Attempt() returns (failure: Option<Step>)
      requires Clean() && !fails(Resolve) && !fails(Begin)
      modifies this`archive, this`stage, this`destination, this`backup, this`manifest
      ensures failure.None? ==> destination == Some(newTree) && manifest == NewManifest(old(manifest)) && backup.None?
      ensures failure.Some? ==> fails(failure.value)
      ensures failure.Some? ==>
                match failure.value
                case Detect => destination == Some(newTree) && manifest == old(manifest) && backup == old(destination)
                case DropNew => destination == Some(debris) && manifest == old(manifest) && backup == old(destination)
                case DropBackup => destination == Some(newTree) && manifest == NewManifest(old(manifest))
                    && backup == Some(debris)
                case Report => destination == Some(newTree) && manifest == NewManifest(old(manifest)) && backup.None?
                case UndoSetAside => destination.None? && manifest == old(manifest) && backup == old(destination)
                case PutBack => destination.None? && manifest == old(manifest) && backup == old(destination)
                case _ => destination == old(destination) && manifest == old(manifest) && backup.None?
      ensures failure.Some? && IsUndoing(failure.value) ==>
                failure.value.UndoSetAside? || failure.value.DropNew? || failure.value.PutBack?
      ensures failure == Some(Detect) || failure == Some(DropNew) ==>
                archive && stage == if payloadIsStage then None else Some("")
      ensures failure.None? <==> Succeeds(old(destination).Some?)
      ensures failure == Some(Detect) <==> MovesIn(old(destination).Some?) && fails(Detect)
      ensures failure == Some(DropNew) <==>
                MovesIn(old(destination).Some?) && !fails(Detect) && fails(Record) && fails(DropNew)
      ensures failure.None? || failure.value.DropBackup? || failure.value.Report? <==>
                MovesIn(old(destination).Some?) && !fails(Detect) && !fails(Record)
      ensures failure.None? ==> archive && stage == if payloadIsStage then None else Some("")
    {
      failure := Prepare();
      if failure.Some? { return; }
      failure := Swap();
      if failure.Some? { return; }
      if fails(Detect) { return Some(Detect); }
      failure := Commit();
      if failure.Some? { return; }
      if backup.Some? {
        if fails(DropBackup) {
          backup := Some(debris);
          return Some(DropBackup);
        }
        backup := None;
      }
      if fails(Report) { return Some(Report); }
      return None;
    }

    /** The whole installation.  It succeeds exactly when nothing on its way fails, and in every
        case the manifest changes only together with the tree.  When undoing and cleaning up
        work, nothing temporary is left, and a failed installation leaves the earlier tree and
        manifest exactly unless the new tree was moved in and then either the search for
        executables failed or the manifest was already written.  Whatever fails, the earlier
        tree is gone exactly in the cases listed last. */
    method InstallOne(healthy: bool) returns (outcome: Outcome)
      requires Clean()
      modifies this`archive, this`stage, this`destination, this`backup, this`manifest
      ensures outcome.AlreadyInstalled? <==>
                !fails(Resolve) && name in old(manifest) && old(manifest)[name].version == version
                && old(manifest)[name].sha256 == sha256 && healthy
      ensures outcome.Installed? <==>
                && !fails(Resolve) && !old(UpToDate(healthy)) && !fails(Begin)
                && Succeeds(old(destination).Some?) && CleaningReachesBackup()
      ensures outcome.AlreadyInstalled? ==> Clean() && destination == old(destination) && manifest == old(manifest)
      ensures outcome.Installed? ==>
                Clean() && destination == Some(newTree)
                && manifest == old(manifest)[name := Entry(version, sha256, detect(newTree))]
      ensures outcome.Failed? ==> fails(outcome.step)
      ensures outcome.Failed? ==>
                || manifest == old(manifest)
                || (manifest == old(manifest)[name := Entry(version, sha256, detect(newTree))]
                    && destination == Some(newTree))
      ensures outcome.Failed? && UndoingWorks() ==> Clean()
      ensures outcome.Failed? && UndoingWorks() ==>
                if MovesIn(old(destination).Some?) && fails(Detect) then
                  outcome == Failed(Detect) && destination == Some(newTree) && manifest == old(manifest)
                else if MovesIn(old(destination).Some?) && !fails(Record) then
                  (outcome == Failed(DropBackup) || outcome == Failed(Report))
                  && destination == Some(newTree) && manifest == NewManifest(old(manifest))
                else
                  destination == old(destination) && manifest == old(manifest)
      ensures outcome.Failed? && UndoingWorks() && old(destination) != Some(newTree) ==>
                (destination == old(destination) && manifest == old(manifest) <==>
                   !(MovesIn(old(destination).Some?) && (fails(Detect) || !fails(Record))))
      ensures old(destination).Some? && old(destination).value !in {newTree, debris} ==>
                (destination != old(destination) && backup != old(destination) <==>
                   && !fails(Resolve) && !old(UpToDate(healthy)) && MovesIn(true)
                   && (if fails(Detect) || (fails(Record) && fails(DropNew)) then CleaningReachesBackup()
                       else !fails(Record)))
    {
      if fails(Resolve) { return Failed(Resolve); }
      if UpToDate(healthy) { return AlreadyInstalled; }
      if fails(Begin) { return Failed(Begin); }
      var failure := Attempt();
      var cleaning := CleanUp();
      if cleaning.Some? { return Failed(cleaning.value); }
      if failure.Some? { return Failed(failure.value); }
      return Installed;
    }
  }

  /** A failed installation that loses the earlier tree: the same version is installed again
      from another archive, its tree replaces the earlier one, then the search for executables
      fails, and the manifest goes on describing the tree that is gone. */
  method InstallLosesEarlierTree(name: string, earlier: Tree, archive: string, newTree: Tree,
                                 before: map<string, Entry>)
    returns (outcome: Outcome, tree: Option<Tree>, leftover: Option<Tree>, after: map<string, Entry>)
    requires name in before && before[name].executables == earlier && before[name].sha256 != archive
    ensures outcome == Failed(Detect)
    ensures tree == Some(newTree) && leftover == None && after == before
  {
    var version := before[name].version;
    var onlyDetect := (step: Step) => step == Detect;
    var slot := new Slot(name, version, archive, newTree, false, "", false, tree => tree, onlyDetect, Some(earlier),
                         before);
    outcome := slot.InstallOne(true);
    tree, leftover, after := slot.destination, slot.backup, slot.manifest;
  }
}
