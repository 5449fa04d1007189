/** `NodeZCodeBuiltinProviderConfigSource`: the locked sections, on the shared file and the source's own fields. */
module ReleaseSource {
  import opened ReleaseStore
  import opened Prelude

  /** The Active file, shared by every source of the machine. */
  class ActiveFile {
    var contents: Candidate

    constructor (contents: Candidate)
      ensures this.contents == contents
    {
      this.contents := contents;
    }
  }

  class ProviderConfigSource {
    const bundled: Candidate
    const file: ActiveFile
    var observedSignature: Option<Release>
    var disposed: bool
    // The reasons given to the listeners.
    var emitted: seq<string>

    constructor (bundled: Candidate, file: ActiveFile)
      ensures this.bundled == bundled && this.file == file
      ensures observedSignature == None && !disposed && emitted == []
    {
      this.bundled, this.file := bundled, file;
      observedSignature, disposed, emitted := None, false, [];
    }

    method ReadAndMaterializeLocked() returns (selected: Option<Release>)
      modifies file
      ensures selected == Select(bundled, old(file.contents))
      ensures file.contents == Materialized(bundled, old(file.contents))
    {
      selected := Select(bundled, file.contents);
      if selected == None {
        return;
      }
      if file.contents != Valid(selected.value) {
        file.contents := Valid(selected.value);
      }
    }

    /** Nothing is emitted, and what was observed first stays observed. */
    method Read() returns (release: Option<Release>)
      requires !disposed
      modifies file, this`observedSignature
      ensures file.contents == Next(bundled, old(file.contents), Look)
      ensures release.Some? ==> file.contents == Valid(release.value)
      ensures release.None? ==> file.contents == old(file.contents)
      ensures observedSignature == if old(observedSignature).Some? then old(observedSignature) else release
    {
      release := ReadAndMaterializeLocked();
      if observedSignature == None {
        observedSignature := release;
      }
    }

    method ApplyRemoteRelease(release: Release) returns (outcome: Outcome)
      modifies file, this`observedSignature, this`emitted
      ensures old(disposed) ==> outcome.Disposed? && file.contents == old(file.contents)
      ensures !old(disposed) ==> (file.contents, outcome) == Applied(bundled, old(file.contents), release)
      ensures observedSignature == if outcome.Updated? then Some(release) else old(observedSignature)
      ensures emitted == if outcome.Updated? then old(emitted) + ["remote-updated"] else old(emitted)
    {
      if disposed {
        return Disposed;
      }
      var current := ReadAndMaterializeLocked();
      if current == None {
        return Unavailable;
      }
      if release.revision < current.value.revision {
        return Stale;
      }
      if release.revision == current.value.revision {
        return if release.content == current.value.content then Unchanged else Conflict;
      }
      file.contents := Valid(release);
      observedSignature := Some(release);
      emitted := emitted + ["remote-updated"];
      return Updated;
    }

    /** The watcher saw the file change. */
    method OnFileEvent()
      modifies file, this`observedSignature, this`emitted
      ensures old(disposed) ==> file.contents == old(file.contents) && emitted == old(emitted)
      ensures old(disposed) ==> observedSignature == old(observedSignature)
      ensures !old(disposed) ==> file.contents == Next(bundled, old(file.contents), Look)
      ensures var seen := Select(bundled, old(file.contents));
        !old(disposed) ==>
          && observedSignature == (if seen.Some? then seen else old(observedSignature))
          && emitted == old(emitted) + (if seen.None? then ["watch-error"]
                                        else if seen == old(observedSignature) then [] else ["file-changed"])
    {
      if disposed {
        return;
      }
      var release := ReadAndMaterializeLocked();
      if release == None {
        emitted := emitted + ["watch-error"];
        return;
      }
      if release == observedSignature {
        return;
      }
      observedSignature := release;
      emitted := emitted + ["file-changed"];
    }

    /** The watcher's event for one's own update is not announced a second time. */
    method OwnUpdateIsAnnouncedOnce(release: Release) returns (outcome: Outcome)
      requires !disposed
      modifies file, this`observedSignature, this`emitted
      ensures outcome.Updated? ==> emitted == old(emitted) + ["remote-updated"] && file.contents == Valid(release)
    {
      outcome := ApplyRemoteRelease(release);
      if outcome.Updated? {
        OnFileEvent();
      }
    }
  }
}
