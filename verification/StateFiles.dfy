/**
 The agent's restricted state files (internal/agent/runtime/state_file.go): a document replaces the
 old one as a whole, through a rename.
 */
module StateFiles {
  import opened Common

  /**
   How a replacement ends. `Kept`: it failed before the rename, so the old document stays.
   `ReplacedThenFailed`: the rename happened and syncing the directory failed, so the caller gets an
   error although the new document is in place.
   */
  datatype WriteOutcome = Stored | Kept | ReplacedThenFailed

  class StateFile<D> {
    var content: Option<D>

    constructor ()
      ensures content == None
    {
      content := None;
    }

    method Replace(document: D) returns (write: WriteOutcome)
      modifies this
      ensures content == if write.Kept? then old(content) else Some(document)
    {
      if * {
        content, write := Some(document), Stored;
      } else if * {
        content, write := Some(document), ReplacedThenFailed;
      } else {
        write := Kept;
      }
    }
  }
}
