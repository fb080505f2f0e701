/** The in-flight set of selector/selector_helper.go (`FileSelector`): the files a
    dispatch currently owns, each with the time it was marked. */
module InFlight {
  import opened Common

  datatype FileSelector = FileSelector(selectedFiles: map<string, Time>)

  /** `NewFileSelector`: no file is in flight. */
  function NewFileSelector(): (fs: FileSelector)
    ensures forall name :: !AlreadyExists(fs, name)
  {
    FileSelector(map[])
  }

  /** `AddFile`: the name becomes (or stays) a member with time `now`; the others are
      untouched. Nothing reports whether the name was new. */
  function AddFile(fs: FileSelector, name: string, now: Time): (r: FileSelector)
    ensures AlreadyExists(r, name) && r.selectedFiles[name] == now
    ensures r.selectedFiles.Keys == fs.selectedFiles.Keys + {name}
    ensures forall k :: k in fs.selectedFiles && k != name ==> r.selectedFiles[k] == fs.selectedFiles[k]
  {
    FileSelector(fs.selectedFiles[name := now])
  }

  /** `GetSnapshot`: a copy equal to the membership map. */
  function GetSnapshot(fs: FileSelector): (snap: map<string, Time>)
    ensures snap.Keys == fs.selectedFiles.Keys
    ensures forall k :: k in snap ==> snap[k] == fs.selectedFiles[k]
  {
    map k | k in fs.selectedFiles :: fs.selectedFiles[k]
  }

  /** `Delete`: removes exactly the name; an absent name is a no-op. */
  function Delete(fs: FileSelector, name: string): (r: FileSelector)
    ensures !AlreadyExists(r, name)
    ensures r.selectedFiles.Keys == fs.selectedFiles.Keys - {name}
    ensures forall k :: k in r.selectedFiles ==> r.selectedFiles[k] == fs.selectedFiles[k]
    ensures !AlreadyExists(fs, name) ==> r == fs
  {
    FileSelector(fs.selectedFiles - {name})
  }

  /** `AlreadyExists`. */
  predicate AlreadyExists(fs: FileSelector, name: string) {
    name in fs.selectedFiles
  }

  /** Adding an existing member keeps the member set as it is and only replaces the time;
      deleting after adding a fresh name restores the set. */
  lemma AddThenDelete(fs: FileSelector, name: string, now: Time)
    ensures AlreadyExists(fs, name) ==> AddFile(fs, name, now).selectedFiles.Keys == fs.selectedFiles.Keys
    ensures !AlreadyExists(fs, name) ==> Delete(AddFile(fs, name, now), name) == fs
  {
    if !AlreadyExists(fs, name) {
      assert Delete(AddFile(fs, name, now), name).selectedFiles == fs.selectedFiles;
    }
  }
}
