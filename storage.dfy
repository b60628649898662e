/**
 * The on-disk `sessions_folder` tree shared by the backend scripts: one sub-folder per session,
 * each holding topic documents stored as JSON objects under a file name such as `<topic>.json`
 * or `<topic>_finished.json`. Paths are reduced to (session folder, file name) pairs.
 */
module Storage {
  import opened Json
  import opened Text

  /** A file inside a session folder. */
  datatype FileKey = FileKey(session: string, name: string)

  /** A snapshot of the tree: whether `sessions_folder` exists, its session folders and its documents. */
  datatype Disk = Disk(present: bool, sessions: set<string>, files: map<FileKey, Obj>) {

    /** Every document lives in an existing session folder, and nothing exists without the root folder. */
    predicate Valid() {
      && (forall k :: k in files ==> k.session in sessions)
      && (!present ==> sessions == {})
    }
  }

  /** `<topic>.json` */
  function TopicFile(topic: string): string {
    topic + ".json"
  }

  /** `<topic>_finished.json` */
  function FinishedFile(topic: string): string {
    topic + "_finished.json"
  }

  /** A file the processing scripts treat as an open topic: ends in `.json` but not in `_finished.json`. */
  predicate IsOpenTopicFile(name: string) {
    EndsWith(name, ".json") && !EndsWith(name, "_finished.json")
  }

  /** Every topic's own file is an open topic file unless the topic name itself ends in `_finished`. */
  lemma TopicFileIsOpen(topic: string)
    requires !EndsWith(topic, "_finished")
    ensures IsOpenTopicFile(TopicFile(topic))
  {
    var n := TopicFile(topic);
    assert n[|n| - 5..] == ".json";
  }

  /** A finished file is never an open topic file. */
  lemma FinishedFileIsClosed(topic: string)
    ensures !IsOpenTopicFile(FinishedFile(topic))
  {
    var n := FinishedFile(topic);
    assert n[|n| - 14..] == "_finished.json";
  }

  /** The sessions folder on disk, updated in place by the server and the scripts. */
  class SessionsFolder {
    var present: bool
    var sessions: set<string>
    var files: map<FileKey, Obj>

    /** The current contents. */
    function View(): Disk
      reads this
    {
      Disk(present, sessions, files)
    }

    /** Nothing on disk yet. */
    constructor ()
      ensures View() == Disk(false, {}, map[])
    {
      present := false;
      sessions := {};
      files := map[];
    }

    /** `os.makedirs(sessions_folder, exist_ok=True)`: the root folder exists afterwards, its contents unchanged. */
    method MakeRoot()
      modifies this
      ensures View() == old(View()).(present := true)
    {
      present := true;
    }

    /** `os.makedirs(sessions_folder/<session>, exist_ok=True)`; an empty name only makes the root. */
    method MakeSession(session: string)
      modifies this
      ensures present
      ensures sessions == if session == "" then old(sessions) else old(sessions) + {session}
      ensures files == old(files)
    {
      present := true;
      if session != "" {
        sessions := sessions + {session};
      }
    }

    /** `json.dump(doc, open(path, "w"))` into an existing session folder. */
    method Write(key: FileKey, doc: Obj)
      requires key.session in sessions
      modifies this
      ensures View() == old(View()).(files := old(files)[key := doc])
    {
      files := files[key := doc];
    }

    /** `os.rename(from, to)` within the tree. */
    method Rename(from: FileKey, to: FileKey)
      requires from in files && to.session in sessions
      modifies this
      ensures View() == old(View()).(files := (old(files) - {from})[to := old(files)[from]])
    {
      files := (files - {from})[to := files[from]];
    }
  }
}
